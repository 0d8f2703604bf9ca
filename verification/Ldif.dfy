/** The LDIF record parser: comments, blank lines, attribute lines, and folded values. */
module Ldif {
  import opened Wrappers
  import opened Text

  /** The attributes of one record, with their values in order. */
  type Block = map<string, seq<string>>

  type Blocks = map<string, Block>

  // ---- one line ---------------------------------------------------------------------------------

  /** What the loop carries from line to line. */
  datatype Parser = Parser(blocks: Blocks, dn: Option<string>, block: Block, last: Option<string>)

  const START := Parser(map[], None, map[], None)

  /** The blocks, with the record that is still open. */
  function Finish(p: Parser): Blocks {
    if p.dn.Some? then p.blocks[p.dn.value := p.block] else p.blocks
  }

  function ValuesOf(block: Block, attr: string): seq<string> {
    if attr in block then block[attr] else []
  }

  /** One more value of `attr`. */
  function Append(block: Block, attr: string, value: string): Block {
    block[attr := ValuesOf(block, attr) + [value]]
  }

  /** More text for the last value of `attr`, if it has one. */
  function Grow(block: Block, attr: string, text: string): Block {
    var values := ValuesOf(block, attr);
    if values == [] then block
    else block[attr := values[|values| - 1 := values[|values| - 1] + text]]
  }

  function Colon(line: string): nat
    requires ':' in line
    ensures Colon(line) < |line| && line[Colon(line)] == ':' && ':' !in line[..Colon(line)]
  {
    if line[0] == ':' then 0 else 1 + Colon(line[1..])
  }

  function Step(p: Parser, line: string): Parser {
    if line != "" && line[0] == ' ' && p.dn.Some? && p.last.Some? then
      p.(block := Grow(p.block, p.last.value, line[1..]))
    else
      var stripped := Strip(line);
      if stripped == "" then
        if p.dn.Some? then Parser(Finish(p), None, map[], None) else p
      else if stripped[0] == '#' || ':' !in stripped then p
      else
        var attr := Lower(Strip(stripped[..Colon(stripped)]));
        var value := Strip(stripped[Colon(stripped) + 1..]);
        if attr == "dn" then Parser(Finish(p), Some(value), map["dn" := [value]], Some("dn"))
        else if p.dn.Some? then p.(block := Append(p.block, attr, value), last := Some(attr))
        else p
  }

  function Run(p: Parser, lines: seq<string>): Parser
    decreases |lines|
  {
    if lines == [] then p else Run(Step(p, lines[0]), lines[1..])
  }

  lemma {:induction false} RunAppend(p: Parser, a: seq<string>, b: seq<string>)
    ensures Run(p, a + b) == Run(Run(p, a), b)
    decreases |a|
  {
    if a == [] {
      assert a + b == b;
    } else {
      assert (a + b)[1..] == a[1..] + b;
      RunAppend(Step(p, a[0]), a[1..], b);
    }
  }

  /** `parse_ldif_blocks`. */
  method ParseLdifBlocks(lines: seq<string>) returns (blocks: Blocks)
    ensures blocks == Finish(Run(START, lines))
  {
    blocks := map[];
    var currentDn: Option<string>, currentBlock: Block, lastAttr: Option<string> := None, map[], None;
    for i := 0 to |lines|
      invariant Run(START, lines) == Run(Parser(blocks, currentDn, currentBlock, lastAttr), lines[i..])
    {
      var line := lines[i];
      assert lines[i..][0] == line && lines[i..][1..] == lines[i + 1..];
      if line != "" && line[0] == ' ' && currentDn.Some? && lastAttr.Some? {
        var attr := lastAttr.value;
        if attr in currentBlock && currentBlock[attr] != [] {
          var n := |currentBlock[attr]| - 1;
          currentBlock := currentBlock[attr := currentBlock[attr][n := currentBlock[attr][n] + line[1..]]];
        }
        continue;
      }
      var stripped := Strip(line);
      if stripped == "" {
        if currentDn.Some? {
          blocks := blocks[currentDn.value := currentBlock];
          currentDn, currentBlock, lastAttr := None, map[], None;
        }
        continue;
      }
      if stripped[0] == '#' || ':' !in stripped {
        continue;
      }
      var attr := Lower(Strip(stripped[..Colon(stripped)]));
      var value := Strip(stripped[Colon(stripped) + 1..]);
      if attr == "dn" {
        if currentDn.Some? {
          blocks := blocks[currentDn.value := currentBlock];
        }
        currentDn, currentBlock, lastAttr := Some(value), map["dn" := [value]], Some("dn");
      } else if currentDn.Some? {
        var known := if attr in currentBlock then currentBlock[attr] else [];
        currentBlock, lastAttr := currentBlock[attr := known + [value]], Some(attr);
      }
    }
    assert lines[|lines|..] == [];
    if currentDn.Some? {
      blocks := blocks[currentDn.value := currentBlock];
    }
  }

  // ---- printing -----------------------------------------------------------------------------------

  /** A continuation line, and the skipped lines before it. */
  datatype Fold = Fold(skipped: seq<string>, chunk: string)

  /** An attribute and its value, as laid out: the value starts with `head` on the attribute's own line
      and goes on over the folds. */
  datatype Field = Field(skipped: seq<string>, attr: string, head: string, folds: seq<Fold>)

  /** A record: its dn, laid out like a value, its fields, and any number of blank lines after it. */
  datatype Record = Record(skipped: seq<string>, dn: string, dnFolds: seq<Fold>, fields: seq<Field>, blanks: nat)

  predicate IsComment(line: string) {
    line != "" && line[0] == '#'
  }

  /** A line that means nothing wherever it stands: a comment, or text without a colon. */
  predicate IsSkipped(line: string) {
    || IsComment(line)
    || (line != "" && line[0] != ' ' && ':' !in line && exists c :: c in line && !IsSpace(c))
  }

  predicate AreSkipped(lines: seq<string>) {
    forall line :: line in lines ==> IsSkipped(line)
  }

  /** An attribute name that the parser can tell from a comment, a continuation, and a dn. */
  predicate IsName(attr: string) {
    Trimmed(attr) && ':' !in attr && !IsComment(attr) && Lower(attr) != "dn"
  }

  predicate WellFolded(folds: seq<Fold>) {
    forall fold :: fold in folds ==> AreSkipped(fold.skipped)
  }

  predicate WellFormedField(f: Field) {
    AreSkipped(f.skipped) && IsName(f.attr) && WellFolded(f.folds)
  }

  predicate WellFormedRecord(r: Record) {
    AreSkipped(r.skipped) && WellFolded(r.dnFolds) && forall f :: f in r.fields ==> WellFormedField(f)
  }

  predicate WellFormed(file: seq<Record>) {
    forall r :: r in file ==> WellFormedRecord(r)
  }

  function FoldLines(folds: seq<Fold>): seq<string> {
    if folds == [] then [] else folds[0].skipped + [" " + folds[0].chunk] + FoldLines(folds[1..])
  }

  function FieldLines(f: Field): seq<string> {
    f.skipped + [f.attr + ":" + " " + f.head] + FoldLines(f.folds)
  }

  function FieldsLines(fields: seq<Field>): seq<string> {
    if fields == [] then [] else FieldLines(fields[0]) + FieldsLines(fields[1..])
  }

  function BlankLines(n: nat): seq<string> {
    if n == 0 then [] else [""] + BlankLines(n - 1)
  }

  function RecordLines(r: Record): seq<string> {
    r.skipped + ["dn" + ":" + " " + r.dn] + FoldLines(r.dnFolds) + FieldsLines(r.fields) + BlankLines(r.blanks)
  }

  function Print(file: seq<Record>): seq<string> {
    if file == [] then [] else Print(file[..|file| - 1]) + RecordLines(file[|file| - 1])
  }

  // ---- what a file means --------------------------------------------------------------------------

  function Unfolded(folds: seq<Fold>): string {
    if folds == [] then "" else folds[0].chunk + Unfolded(folds[1..])
  }

  /** The value as it was written. */
  function Written(f: Field): string {
    f.head + Unfolded(f.folds)
  }

  /** The value as it is read: white space at either end of the first line is lost. */
  function Read(f: Field): string {
    Strip(f.head) + Unfolded(f.folds)
  }

  /** A value survives exactly when it is folded after, and begins with, a character that is not white
      space; an empty first line is fine too. */
  lemma ReadAsWrittenIff(f: Field)
    ensures Read(f) == Written(f) <==> Trimmed(f.head)
  {
    StripTrims(f.head);
    StripShortens(f.head);
    if Read(f) == Written(f) {
      assert |Strip(f.head)| == |f.head|;
      assert Read(f)[..|f.head|] == Strip(f.head) && Written(f)[..|f.head|] == f.head;
    }
  }

  /** The values of the fields named `attr`, in order. */
  function ReadAll(fields: seq<Field>, attr: string): seq<string> {
    if fields == [] then []
    else
      var last := fields[|fields| - 1];
      ReadAll(fields[..|fields| - 1], attr) + if Lower(last.attr) == attr then [Read(last)] else []
  }

  /** Some field has this name, in whatever case it is spelled. */
  ghost predicate Named(fields: seq<Field>, attr: string) {
    exists f :: f in fields && Lower(f.attr) == attr
  }

  /** The dn as it is read into the block. */
  function ReadDn(r: Record): string {
    Strip(r.dn) + Unfolded(r.dnFolds)
  }

  /** The dn under which the block is filed: continuation lines come too late to change it. */
  function KeyOf(r: Record): string {
    Strip(r.dn)
  }

  /** The dn as it was written. */
  function WrittenDn(r: Record): string {
    r.dn + Unfolded(r.dnFolds)
  }

  /** The block of a record: the dn, and under every name its values in order. */
  ghost predicate IsBlockOf(block: Block, r: Record) {
    && "dn" in block && block["dn"] == [ReadDn(r)]
    && forall attr :: attr != "dn" ==>
         && (attr in block <==> Named(r.fields, attr))
         && ValuesOf(block, attr) == ReadAll(r.fields, attr)
  }

  function AppendAll(block: Block, fields: seq<Field>): Block {
    if fields == [] then block
    else
      var last := fields[|fields| - 1];
      Append(AppendAll(block, fields[..|fields| - 1]), Lower(last.attr), Read(last))
  }

  function BlockOf(r: Record): Block {
    AppendAll(map["dn" := [ReadDn(r)]], r.fields)
  }

  /** The blocks by key; of two with the same key the later one stays. */
  function Meaning(file: seq<Record>): Blocks {
    if file == [] then map[]
    else
      var last := file[|file| - 1];
      Meaning(file[..|file| - 1])[KeyOf(last) := BlockOf(last)]
  }

  // ---- stripping a line ---------------------------------------------------------------------------

  lemma {:induction false} StripLeftSplits(s: string)
    ensures |StripLeft(s)| <= |s|
    ensures var n := |s| - |StripLeft(s)|; s == s[..n] + StripLeft(s) && forall c :: c in s[..n] ==> IsSpace(c)
  {
    if s != "" && IsSpace(s[0]) {
      StripLeftSplits(s[1..]);
      var n := |s| - |StripLeft(s)|;
      assert s[..n] == [s[0]] + s[1..][..n - 1];
    }
  }

  lemma {:induction false} StripRightSplits(s: string)
    ensures |StripRight(s)| <= |s|
    ensures var n := |StripRight(s)|; s == StripRight(s) + s[n..] && forall c :: c in s[n..] ==> IsSpace(c)
  {
    if s != "" && IsSpace(s[|s| - 1]) {
      var init := s[..|s| - 1];
      StripRightSplits(init);
      assert s[|StripRight(s)|..] == init[|StripRight(s)|..] + [s[|s| - 1]];
    }
  }

  lemma StripShortens(s: string)
    ensures |Strip(s)| <= |s|
  {
    StripLeftSplits(s);
    StripRightSplits(StripLeft(s));
  }

  /** Only what is trimmed keeps its length. */
  lemma StripSplits(s: string)
    ensures |Strip(s)| == |s| ==> Strip(s) == s
  {
    StripLeftSplits(s);
    StripRightSplits(StripLeft(s));
    if |Strip(s)| == |s| {
      assert |StripLeft(s)| == |s|;
      assert s[..0] == "";
      assert StripLeft(s) == s;
      assert s[|s|..] == "";
    }
  }

  /** Stripping the right end first makes no difference. */
  lemma StripOfStripRight(s: string)
    ensures Strip(StripRight(s)) == Strip(s)
  {
    var t := StripRight(s);
    StripRightSplits(s);
    StripRightTrims(s);
    var after := s[|t|..];
    StripLeftSplits(t);
    StripLeftTrims(t);
    var before, middle := t[..|t| - |StripLeft(t)|], StripLeft(t);
    if middle == "" {
      assert t == before;
      assert t == "";
      StripPadding("", "", after);
      assert s == "" + "" + after;
    } else {
      assert middle[|middle| - 1] == t[|t| - 1];
      StripPadding(before, middle, after);
      StripPadding(before, middle, "");
      assert s == before + middle + after && t == before + middle + "";
    }
  }

  /** Stripping the right end does not reach past a character that is not white space. */
  lemma {:induction false} StripRightStops(prefix: string, rest: string)
    requires prefix != "" && !IsSpace(prefix[|prefix| - 1])
    ensures StripRight(prefix + rest) == prefix + StripRight(rest)
  {
    if rest == "" {
      assert prefix + rest == prefix;
    } else if IsSpace(rest[|rest| - 1]) {
      var init := rest[..|rest| - 1];
      assert (prefix + rest)[..|prefix + rest| - 1] == prefix + init;
      StripRightStops(prefix, init);
    }
  }

  lemma {:induction false} ColonAfterName(name: string, rest: string)
    requires ':' !in name
    ensures ':' in name + ":" + rest && Colon(name + ":" + rest) == |name|
  {
    var line := name + ":" + rest;
    assert line[|name|] == ':';
    if name != "" {
      assert line[0] == name[0] && line[1..] == name[1..] + ":" + rest;
      ColonAfterName(name[1..], rest);
    }
  }

  /** How the parser takes an attribute line apart. */
  lemma TakeApart(name: string, rest: string)
    requires Trimmed(name) && ':' !in name
    ensures var line := name + ":" + rest; var stripped := Strip(line);
      && stripped != ""
      && line[0] == stripped[0] == (if name == "" then ':' else name[0])
      && ':' in stripped
      && Strip(stripped[..Colon(stripped)]) == name
      && Strip(stripped[Colon(stripped) + 1..]) == Strip(rest)
  {
    var line := name + ":" + rest;
    assert line == (name + ":") + rest;
    assert StripLeft(line) == line;
    StripRightStops(name + ":", rest);
    var stripped := Strip(line);
    assert stripped == name + ":" + StripRight(rest);
    ColonAfterName(name, StripRight(rest));
    assert stripped[..|name|] == name && stripped[|name| + 1..] == StripRight(rest);
    StripTrims(name);
    StripOfStripRight(rest);
  }

  lemma CommentIsSkipped(p: Parser, line: string)
    requires IsComment(line)
    ensures Step(p, line) == p
  {
    assert line == [line[0]] + line[1..];
    assert StripLeft(line) == line;
    StripRightStops([line[0]], line[1..]);
  }

  /** Stripping loses white space only. */
  lemma StripKeepsRest(line: string, c: char)
    ensures c in Strip(line) ==> c in line
    ensures c in line && !IsSpace(c) ==> c in Strip(line)
  {
    StripLeftSplits(line);
    StripRightSplits(StripLeft(line));
    var left := StripLeft(line);
    assert line == line[..|line| - |left|] + left;
    assert left == StripRight(left) + left[|StripRight(left)|..];
  }

  lemma LineIsSkipped(p: Parser, line: string)
    requires IsSkipped(line)
    ensures Step(p, line) == p
  {
    if IsComment(line) {
      CommentIsSkipped(p, line);
    } else {
      var c :| c in line && !IsSpace(c);
      StripKeepsRest(line, c);
      StripKeepsRest(line, ':');
    }
  }

  lemma {:induction false} LinesAreSkipped(p: Parser, lines: seq<string>)
    requires AreSkipped(lines)
    ensures Run(p, lines) == p
  {
    if lines != [] {
      LineIsSkipped(p, lines[0]);
      LinesAreSkipped(p, lines[1..]);
    }
  }

  lemma RunSkipped(p: Parser, skipped: seq<string>, line: string, rest: seq<string>)
    requires AreSkipped(skipped)
    ensures Run(p, skipped + [line] + rest) == Run(Step(p, line), rest)
  {
    assert skipped + [line] + rest == skipped + ([line] + rest);
    RunAppend(p, skipped, [line] + rest);
    LinesAreSkipped(p, skipped);
    assert ([line] + rest)[1..] == rest;
  }

  // ---- lines that mean nothing ----------------------------------------------------------------------

  lemma RunOver(before: seq<string>, line: string, after: seq<string>)
    ensures Run(START, before + [line] + after) == Run(Step(Run(START, before), line), after)
  {
    assert before + [line] + after == before + ([line] + after);
    RunAppend(START, before, [line] + after);
    assert ([line] + after)[1..] == after;
  }

  /** Such a line can stand anywhere, also inside a record and between the folds of a value. */
  lemma SkippedAnywhere(before: seq<string>, line: string, after: seq<string>)
    requires IsSkipped(line)
    ensures Run(START, before + [line] + after) == Run(START, before + after)
  {
    RunAppend(START, before, after);
    RunOver(before, line, after);
    LineIsSkipped(Run(START, before), line);
  }

  /** No record is open: nothing has been read, or an empty line. */
  predicate BetweenRecords(before: seq<string>) {
    before == [] || before[|before| - 1] == ""
  }

  lemma NoneIsOpen(before: seq<string>)
    requires BetweenRecords(before)
    ensures Run(START, before).dn == None
  {
    if before != [] {
      var init := before[..|before| - 1];
      assert before == init + [""];
      RunAppend(START, init, [""]);
    }
  }

  lemma OrphanStep(p: Parser, name: string, rest: string)
    requires p.dn == None && IsName(name)
    ensures Step(p, name + ":" + rest) == p
  {
    TakeApart(name, rest);
  }

  /** Between records an attribute line is dropped. */
  lemma OrphanIsDropped(before: seq<string>, name: string, rest: string, after: seq<string>)
    requires BetweenRecords(before) && IsName(name)
    ensures Run(START, before + [name + ":" + rest] + after) == Run(START, before + after)
  {
    NoneIsOpen(before);
    RunAppend(START, before, after);
    RunOver(before, name + ":" + rest, after);
    OrphanStep(Run(START, before), name, rest);
  }

  lemma PaddedStep(p: Parser, line: string)
    requires p.dn == None
    ensures Step(p, " " + line) == Step(p, line)
  {
    assert (" " + line)[1..] == line;
  }

  /** Between records a leading space folds nothing: it is white space like any other. */
  lemma NothingToFold(before: seq<string>, line: string, after: seq<string>)
    requires BetweenRecords(before)
    ensures Run(START, before + [" " + line] + after) == Run(START, before + [line] + after)
  {
    NoneIsOpen(before);
    RunOver(before, " " + line, after);
    RunOver(before, line, after);
    PaddedStep(Run(START, before), line);
  }

  // ---- parsing a printed file -----------------------------------------------------------------------

  lemma GrowTwice(block: Block, attr: string, a: string, b: string)
    ensures Grow(Grow(block, attr, a), attr, b) == Grow(block, attr, a + b)
  {
    var values := ValuesOf(block, attr);
    if values != [] {
      var n := |values| - 1;
      assert values[n] + (a + b) == (values[n] + a) + b;
      assert values[n := values[n] + a][n := values[n] + a + b] == values[n := values[n] + (a + b)];
    }
  }

  lemma GrowAppended(block: Block, attr: string, value: string, text: string)
    ensures Grow(Append(block, attr, value), attr, text) == Append(block, attr, value + text)
  {
    var values := ValuesOf(block, attr);
    assert (values + [value])[|values| := value + text] == values + [value + text];
  }

  lemma GrowOnly(attr: string, value: string, text: string)
    ensures Grow(map[attr := [value]], attr, text) == map[attr := [value + text]]
  {
    assert [value][0 := value + text] == [value + text];
  }

  lemma {:induction false} RunFolds(p: Parser, attr: string, folds: seq<Fold>)
    requires p.dn.Some? && p.last == Some(attr) && attr in p.block && p.block[attr] != []
    requires WellFolded(folds)
    ensures Run(p, FoldLines(folds)) == p.(block := Grow(p.block, attr, Unfolded(folds)))
    decreases folds
  {
    var values := p.block[attr];
    var n := |values| - 1;
    if folds == [] {
      assert values[n] + "" == values[n];
      assert values[n := values[n] + ""] == values;
      assert p.block[attr := values] == p.block;
    } else {
      var line := " " + folds[0].chunk;
      RunSkipped(p, folds[0].skipped, line, FoldLines(folds[1..]));
      assert line[1..] == folds[0].chunk;
      var q := Step(p, line);
      RunFolds(q, attr, folds[1..]);
      GrowTwice(p.block, attr, folds[0].chunk, Unfolded(folds[1..]));
    }
  }

  lemma FieldLineStep(p: Parser, attr: string, head: string)
    requires p.dn.Some? && IsName(attr)
    ensures Step(p, attr + ":" + " " + head)
         == p.(block := Append(p.block, Lower(attr), Strip(head)), last := Some(Lower(attr)))
  {
    assert attr + ":" + " " + head == attr + ":" + (" " + head);
    TakeApart(attr, " " + head);
    StripLeftPadding(" ", head);
  }

  lemma RunField(p: Parser, f: Field)
    requires p.dn.Some? && WellFormedField(f)
    ensures Run(p, FieldLines(f)) == p.(block := Append(p.block, Lower(f.attr), Read(f)), last := Some(Lower(f.attr)))
  {
    var attr := Lower(f.attr);
    FieldLineStep(p, f.attr, f.head);
    RunSkipped(p, f.skipped, f.attr + ":" + " " + f.head, FoldLines(f.folds));
    RunFolds(p.(block := Append(p.block, attr, Strip(f.head)), last := Some(attr)), attr, f.folds);
    GrowAppended(p.block, attr, Strip(f.head), Unfolded(f.folds));
  }

  lemma {:induction false} FieldsLinesAppend(fields: seq<Field>, last: Field)
    ensures FieldsLines(fields + [last]) == FieldsLines(fields) + FieldLines(last)
  {
    if fields == [] {
      assert fields + [last] == [last];
      assert FieldsLines([last][1..]) == [];
    } else {
      assert (fields + [last])[1..] == fields[1..] + [last];
      FieldsLinesAppend(fields[1..], last);
    }
  }

  lemma {:induction false} RunFields(p: Parser, fields: seq<Field>)
    requires p.dn.Some? && forall f :: f in fields ==> WellFormedField(f)
    ensures var r := Run(p, FieldsLines(fields));
      r == p.(block := AppendAll(p.block, fields), last := r.last)
  {
    if fields != [] {
      var init, last := fields[..|fields| - 1], fields[|fields| - 1];
      assert fields == init + [last];
      RunFields(p, init);
      FieldsLinesAppend(init, last);
      RunAppend(p, FieldsLines(init), FieldLines(last));
      RunField(Run(p, FieldsLines(init)), last);
    }
  }

  lemma {:induction false} BlanksClose(p: Parser, n: nat)
    ensures Finish(Run(p, BlankLines(n))) == Finish(p)
    decreases n
  {
    if n > 0 {
      BlanksClose(Step(p, ""), n - 1);
    }
  }

  lemma DnIsAName(name: string)
    requires name == "dn"
    ensures Trimmed(name) && ':' !in name && !IsComment(name) && Lower(name) == name
  {
    LowerPointwise(name);
  }

  lemma DnLineStep(p: Parser, name: string, dn: string)
    requires name == "dn"
    ensures Step(p, name + ":" + " " + dn) == Parser(Finish(p), Some(Strip(dn)), map["dn" := [Strip(dn)]], Some("dn"))
  {
    assert name + ":" + " " + dn == name + ":" + (" " + dn);
    DnIsAName(name);
    TakeApart(name, " " + dn);
    StripLeftPadding(" ", dn);
  }

  lemma RunDn(p: Parser, r: Record)
    requires WellFormedRecord(r)
    ensures Run(p, r.skipped + ["dn" + ":" + " " + r.dn] + FoldLines(r.dnFolds))
         == Parser(Finish(p), Some(KeyOf(r)), map["dn" := [ReadDn(r)]], Some("dn"))
  {
    DnLineStep(p, "dn", r.dn);
    RunSkipped(p, r.skipped, "dn" + ":" + " " + r.dn, FoldLines(r.dnFolds));
    var first: Block := map["dn" := [Strip(r.dn)]];
    RunFolds(Parser(Finish(p), Some(KeyOf(r)), first, Some("dn")), "dn", r.dnFolds);
    GrowOnly("dn", Strip(r.dn), Unfolded(r.dnFolds));
  }

  lemma RunRecord(p: Parser, r: Record)
    requires WellFormedRecord(r)
    ensures Finish(Run(p, RecordLines(r))) == Finish(p)[KeyOf(r) := BlockOf(r)]
  {
    var dnLines := r.skipped + ["dn" + ":" + " " + r.dn] + FoldLines(r.dnFolds);
    RunAppend(p, dnLines + FieldsLines(r.fields), BlankLines(r.blanks));
    RunAppend(p, dnLines, FieldsLines(r.fields));
    RunDn(p, r);
    RunFields(Run(p, dnLines), r.fields);
    BlanksClose(Run(p, dnLines + FieldsLines(r.fields)), r.blanks);
  }

  /** Parsing a printed file gives its meaning, however it was folded and spaced, and whatever lines that mean
      nothing are in it. */
  lemma {:induction false} ParseOfPrint(file: seq<Record>)
    requires WellFormed(file)
    ensures Finish(Run(START, Print(file))) == Meaning(file)
  {
    if file != [] {
      var init, last := file[..|file| - 1], file[|file| - 1];
      ParseOfPrint(init);
      RunAppend(START, Print(init), RecordLines(last));
      assert last in file;
      RunRecord(Run(START, Print(init)), last);
    }
  }

  // ---- the round trip -----------------------------------------------------------------------------

  /** What the block of a record holds under one name. */
  lemma {:induction false} BlockAt(r: Record, attr: string)
    requires attr != "dn"
    ensures attr in BlockOf(r) <==> Named(r.fields, attr)
    ensures ValuesOf(BlockOf(r), attr) == ReadAll(r.fields, attr)
    decreases |r.fields|
  {
    if r.fields != [] {
      var init, last := r.(fields := r.fields[..|r.fields| - 1]), r.fields[|r.fields| - 1];
      assert r.fields == init.fields + [last];
      BlockAt(init, attr);
      assert Named(r.fields, attr) <==> Named(init.fields, attr) || Lower(last.attr) == attr;
    }
  }

  lemma {:induction false} DnOfBlock(r: Record)
    requires forall f :: f in r.fields ==> IsName(f.attr)
    ensures "dn" in BlockOf(r) && BlockOf(r)["dn"] == [ReadDn(r)]
    decreases |r.fields|
  {
    if r.fields != [] {
      DnOfBlock(r.(fields := r.fields[..|r.fields| - 1]));
      assert IsName(r.fields[|r.fields| - 1].attr);
    }
  }

  lemma BlockOfIsBlock(r: Record)
    requires forall f :: f in r.fields ==> IsName(f.attr)
    ensures IsBlockOf(BlockOf(r), r)
  {
    DnOfBlock(r);
    forall attr: string | attr != "dn"
      ensures attr in BlockOf(r) <==> Named(r.fields, attr)
      ensures ValuesOf(BlockOf(r), attr) == ReadAll(r.fields, attr)
    {
      BlockAt(r, attr);
    }
  }

  predicate DistinctKeys(file: seq<Record>) {
    forall i, j :: 0 <= i < j < |file| ==> KeyOf(file[i]) != KeyOf(file[j])
  }

  ghost predicate IsKey(file: seq<Record>, key: string) {
    exists r :: r in file && KeyOf(r) == key
  }

  lemma {:induction false} MeaningKeys(file: seq<Record>)
    ensures forall key :: key in Meaning(file) <==> IsKey(file, key)
  {
    if file != [] {
      var init, last := file[..|file| - 1], file[|file| - 1];
      assert file == init + [last];
      MeaningKeys(init);
      assert forall key: string :: IsKey(file, key) <==> IsKey(init, key) || KeyOf(last) == key;
    }
  }

  lemma {:induction false} MeaningByKey(file: seq<Record>, i: nat)
    requires DistinctKeys(file) && i < |file|
    ensures KeyOf(file[i]) in Meaning(file) && Meaning(file)[KeyOf(file[i])] == BlockOf(file[i])
    decreases file
  {
    if i < |file| - 1 {
      var init := file[..|file| - 1];
      assert forall j :: 0 <= j < |init| ==> init[j] == file[j];
      assert DistinctKeys(init);
      MeaningByKey(init, i);
    }
  }

  /** Printing records with distinct dns and parsing them back gives, under each dn, the attributes with
      their values in order, and nothing else. */
  lemma RoundTrip(file: seq<Record>)
    requires WellFormed(file) && DistinctKeys(file)
    ensures var blocks := Finish(Run(START, Print(file)));
      && (forall key :: key in blocks <==> IsKey(file, key))
      && (forall r :: r in file ==> IsBlockOf(blocks[KeyOf(r)], r))
  {
    ParseOfPrint(file);
    MeaningKeys(file);
    forall r | r in file ensures IsBlockOf(Meaning(file)[KeyOf(r)], r) {
      var i :| 0 <= i < |file| && file[i] == r;
      MeaningByKey(file, i);
      assert forall f :: f in r.fields ==> WellFormedField(f);
      BlockOfIsBlock(r);
    }
  }

  /** Laid out so that nothing is lost: trimmed first lines, lower-case names, and a dn on one line. */
  predicate Faithful(r: Record) {
    Trimmed(r.dn) && r.dnFolds == [] && forall f :: f in r.fields ==> Trimmed(f.head) && Lower(f.attr) == f.attr
  }

  /** The values written under exactly this name, in order. */
  function WrittenAll(fields: seq<Field>, attr: string): seq<string> {
    if fields == [] then []
    else
      var last := fields[|fields| - 1];
      WrittenAll(fields[..|fields| - 1], attr) + if last.attr == attr then [Written(last)] else []
  }

  lemma {:induction false} ReadAllIsWrittenAll(fields: seq<Field>, attr: string)
    requires forall f :: f in fields ==> Trimmed(f.head) && Lower(f.attr) == f.attr
    ensures ReadAll(fields, attr) == WrittenAll(fields, attr)
  {
    if fields != [] {
      ReadAllIsWrittenAll(fields[..|fields| - 1], attr);
      ReadAsWrittenIff(fields[|fields| - 1]);
    }
  }

  /** Then what was written is what is read, wherever values were folded and lines skipped. */
  lemma FaithfulRoundTrip(file: seq<Record>, r: Record, attr: string)
    requires WellFormed(file) && DistinctKeys(file) && r in file && Faithful(r)
    ensures var blocks := Finish(Run(START, Print(file)));
      && r.dn in blocks && "dn" in blocks[r.dn] && blocks[r.dn]["dn"] == [r.dn]
      && (attr != "dn" ==> ValuesOf(blocks[r.dn], attr) == WrittenAll(r.fields, attr))
  {
    RoundTrip(file);
    StripTrims(r.dn);
    assert IsKey(file, KeyOf(r));
    assert r.dn + "" == r.dn;
    assert ReadDn(r) == r.dn;
    ReadAllIsWrittenAll(r.fields, attr);
  }

  // ---- records and their dns ------------------------------------------------------------------------

  /** The dn is on one line, without white space around it. */
  predicate PlainDn(r: Record) {
    Trimmed(r.dn) && Unfolded(r.dnFolds) == ""
  }

  lemma PlainDnIsKeyIff(r: Record)
    ensures KeyOf(r) == WrittenDn(r) <==> PlainDn(r)
    ensures !PlainDn(r) ==> |KeyOf(r)| < |WrittenDn(r)|
    ensures PlainDn(r) ==> ReadDn(r) == WrittenDn(r)
  {
    StripTrims(r.dn);
    StripShortens(r.dn);
    StripSplits(r.dn);
    if PlainDn(r) {
      assert r.dn + "" == r.dn;
    }
  }

  /** Parsing the file finds the record under the dn that was written. */
  ghost predicate FoundAsWritten(file: seq<Record>, r: Record) {
    var blocks := Finish(Run(START, Print(file)));
    WrittenDn(r) in blocks && IsBlockOf(blocks[WrittenDn(r)], r)
  }

  /** A record whose dn was folded or padded is not under the dn that was written; all that can be found
      there is another record. */
  lemma KeyAsWrittenIff(file: seq<Record>, r: Record)
    requires WellFormed(file) && DistinctKeys(file) && r in file
    ensures WrittenDn(r) in Finish(Run(START, Print(file)))
       <==> PlainDn(r) || exists other :: other in file && other != r && KeyOf(other) == WrittenDn(r)
    ensures PlainDn(r) ==> FoundAsWritten(file, r)
  {
    RoundTrip(file);
    PlainDnIsKeyIff(r);
    assert IsKey(file, KeyOf(r));
  }

  predicate DistinctDns(file: seq<Record>) {
    forall i, j :: 0 <= i < j < |file| ==> WrittenDn(file[i]) != WrittenDn(file[j])
  }

  lemma SameDnSameRecord(file: seq<Record>, q: Record, r: Record)
    requires DistinctDns(file) && q in file && r in file && WrittenDn(q) == WrittenDn(r)
    ensures q == r
  {
    var i: nat, j: nat :| i < |file| && j < |file| && file[i] == q && file[j] == r;
    if i != j {
      DistinctAt(file, i, j);
    }
  }

  lemma DistinctAt(file: seq<Record>, i: nat, j: nat)
    requires DistinctDns(file) && i < |file| && j < |file| && i != j
    ensures WrittenDn(file[i]) != WrittenDn(file[j])
  {
  }

  /** If every written dn is a key, a record without a plain dn sits under the dn of a longer one. */
  lemma {:induction false} NoLongerDn(file: seq<Record>, r: Record, bound: nat)
    requires DistinctDns(file) && r in file
    requires forall q :: q in file ==> IsKey(file, WrittenDn(q)) && |WrittenDn(q)| <= bound
    ensures PlainDn(r)
    decreases bound - |WrittenDn(r)|
  {
    PlainDnIsKeyIff(r);
    if !PlainDn(r) {
      var other :| other in file && KeyOf(other) == WrittenDn(r);
      PlainDnIsKeyIff(other);
      if PlainDn(other) {
        SameDnSameRecord(file, r, other);
      } else {
        NoLongerDn(file, other, bound);
      }
    }
  }

  lemma {:induction false} LongestDn(file: seq<Record>) returns (bound: nat)
    ensures forall q :: q in file ==> |WrittenDn(q)| <= bound
  {
    bound := 0;
    if file != [] {
      var last := |WrittenDn(file[|file| - 1])|;
      bound := LongestDn(file[..|file| - 1]);
      bound := if bound < last then last else bound;
      assert forall q :: q in file ==> q in file[..|file| - 1] || q == file[|file| - 1];
    }
  }

  /** Every record is found under the dn that was written exactly when no dn was folded or padded. */
  lemma AllFoundAsWrittenIff(file: seq<Record>)
    requires WellFormed(file) && DistinctDns(file)
    ensures (forall r :: r in file ==> FoundAsWritten(file, r)) <==> (forall r :: r in file ==> PlainDn(r))
  {
    if forall r :: r in file ==> PlainDn(r) {
      forall i, j | 0 <= i < j < |file| ensures KeyOf(file[i]) != KeyOf(file[j]) {
        PlainDnIsKeyIff(file[i]);
        PlainDnIsKeyIff(file[j]);
      }
      forall r | r in file ensures FoundAsWritten(file, r) {
        KeyAsWrittenIff(file, r);
      }
    }
    if forall r :: r in file ==> FoundAsWritten(file, r) {
      ParseOfPrint(file);
      MeaningKeys(file);
      var bound := LongestDn(file);
      forall r | r in file ensures PlainDn(r) {
        assert forall q :: q in file ==> FoundAsWritten(file, q);
        NoLongerDn(file, r, bound);
      }
    }
  }

  /** A file that shows it: the record whose dn was folded after its first letter is lost under that letter. */
  lemma FoldedDnIsLost() returns (r: Record)
    ensures WellFormed([r]) && WrittenDn(r) == "ab"
    ensures var blocks := Finish(Run(START, Print([r])));
      "ab" !in blocks && "a" in blocks && "dn" in blocks["a"] && blocks["a"]["dn"] == ["ab"]
  {
    r := Record([], "a", [Fold([], "b")], [], 0);
    assert Unfolded(r.dnFolds[1..]) == "";
    assert Unfolded(r.dnFolds) == "b";
    StripTrims(r.dn);
    assert WellFormedRecord(r);
    KeyAsWrittenIff([r], r);
    RoundTrip([r]);
    assert IsKey([r], "a");
  }
}
