/** class_parser.py: the reader of the character-class file. Opener lines start
    with helmet, hood or hat; a block closes at its first `}` line; block values
    stay strings. The generator turns each block with a class into a
    CharacterClass constructor line. */
module ClassParser {
  import opened Text
  import opened Values
  import FileParser

  /** A parsed class block: every value is the string written in the file. */
  type ClassBlock = map<string, string>

  // ---------------------------------------------------------------- one block

  /** The rule parse_class_block applies to one line: the comment is cut, the line
      stripped and split at its first '='; the key is stripped, the value stripped
      and freed of trailing ';' characters. */
  function ClassEntry(line: string): Option<(string, string)>
  {
    var code := Strip(Before(line, "//"));
    if '=' in code then
      var (k, v) := SplitOnce(code, '=');
      Some((Strip(k), RStripAny(Strip(v), {';'})))
    else None
  }

  /** The dict parse_class_block returns for a block's text. */
  function BlockFields(blockText: string): ClassBlock
  {
    Assigned(Collect(SplitLines(Strip(blockText)), ClassEntry))
  }

  /** The class reader finds the same keys as the .enml reader, and leaves
      uncoerced the value that one coerces. */
  lemma ClassEntryIsUncoerced(line: string)
    ensures ClassEntry(line).Some? <==> FileParser.EnmlEntry(line).Some?
    ensures ClassEntry(line).Some? ==>
      FileParser.EnmlEntry(line).value == (ClassEntry(line).value.0, FileParser.Coerce(ClassEntry(line).value.1))
  {
  }

  /** A written `key = value;` line is read back as exactly that key and value. */
  lemma ClassEntryReadsLineBack(k: string, v: string)
    requires k != [] && '=' !in k && Strip(k) == k
    requires v != [] && v[0] !in Whitespace && v[|v| - 1] !in Whitespace && v[|v| - 1] != ';'
    requires !Contains(k + " = " + v + ";", "//")
    ensures ClassEntry(k + " = " + v + ";") == Some((k, v))
  {
    FileParser.WrittenLineIsCode(k, v);
    FileParser.WrittenLineSplits(k, v);
    FileParser.WrittenPartsStrip(k, v);
  }

  /** parse_class_block: fills a dict line by line; a duplicate key overwrites. */
  method ParseClassBlock(blockText: string) returns (item: ClassBlock)
    ensures item == BlockFields(blockText)
  {
    var lines := SplitLines(Strip(blockText));
    item := map[];
    var i := 0;
    while i < |lines|
      invariant 0 <= i <= |lines|
      invariant item == Assigned(Collect(lines[..i], ClassEntry))
    {
      var entry := ClassEntry(lines[i]);
      AssignedStep(lines, i, ClassEntry);
      if entry.Some? {
        item := item[entry.value.0 := entry.value.1];
      }
      i := i + 1;
    }
    WholePrefix(lines);
  }

  // ---------------------------------------------------------------- the line state machine

  /** A line that announces a class block (case-sensitive). */
  predicate IsOpener(t: string)
  {
    StartsWith(t, "helmet") || StartsWith(t, "hood") || StartsWith(t, "hat")
  }

  /** A line the reader ignores in every state: blank, or a `//` comment. */
  predicate IsSkipped(t: string)
  {
    t == [] || StartsWith(t, "//")
  }

  /** The variables of the parse_file loop. Each closed block is kept as its opener
      line and its joined text; Emitted turns them into dicts. */
  datatype ClassScanState = ClassScanState(
    pending: bool,
    inside: bool,
    identifier: string,     // the latest opener line
    blockLines: seq<string>,
    closed: seq<(string, string)>)

  const Start := ClassScanState(false, false, "", [], [])

  /** One iteration of the loop on a line. */
  function Step(st: ClassScanState, line: string): ClassScanState
  {
    var t := Strip(line);
    if IsSkipped(t) then st
    else if IsOpener(t) then st.(pending := true, identifier := t)
    else if st.pending && '{' in t then
      st.(inside := true, pending := false, blockLines := [After(t, '{')])
    else if st.inside then
      if '}' in t then
        st.(inside := false, blockLines := [], closed := st.closed + [(st.identifier, Join(st.blockLines, "\n"))])
      else st.(blockLines := st.blockLines + [t])
    else st
  }

  function Scan(lines: seq<string>): ClassScanState
  {
    if lines == [] then Start else Step(Scan(lines[..|lines| - 1]), lines[|lines| - 1])
  }

  /** A closed block as parse_file appends it: its fields, with `identifier` set to
      its opener line. */
  function Emit(c: (string, string)): ClassBlock
  {
    BlockFields(c.1)["identifier" := c.0]
  }

  function Emitted(closed: seq<(string, string)>): (r: seq<ClassBlock>)
    ensures |r| == |closed|
  {
    seq(|closed|, j requires 0 <= j < |closed| => Emit(closed[j]))
  }

  /** The blocks parse_file returns for a file's lines. */
  function ClassBlocks(lines: seq<string>): seq<ClassBlock>
  {
    Emitted(Scan(lines).closed)
  }

  lemma EmittedAppend(closed: seq<(string, string)>, c: (string, string))
    ensures Emitted(closed + [c]) == Emitted(closed) + [Emit(c)]
  {
  }

  lemma ScanStep(lines: seq<string>, i: int)
    requires 0 <= i < |lines|
    ensures Scan(lines[..i + 1]) == Step(Scan(lines[..i]), lines[i])
  {
    assert lines[..i + 1][..i] == lines[..i];
  }

  /** One pass of the loop body of parse_file. */
  method ConsumeLine(st: ClassScanState, blocks: seq<ClassBlock>, line: string)
    returns (next: ClassScanState, nextBlocks: seq<ClassBlock>)
    requires blocks == Emitted(st.closed)
    ensures next == Step(st, line)
    ensures nextBlocks == Emitted(next.closed)
  {
    nextBlocks := blocks;
    var lineStripped := Strip(line);
    if lineStripped == [] || StartsWith(lineStripped, "//") {
      next := st;
    } else if StartsWith(lineStripped, "helmet") || StartsWith(lineStripped, "hood")
           || StartsWith(lineStripped, "hat") {
      next := st.(pending := true, identifier := lineStripped);
    } else if st.pending && '{' in lineStripped {
      next := st.(inside := true, pending := false, blockLines := [After(lineStripped, '{')]);
    } else if st.inside {
      if '}' in lineStripped {
        var blockText := Join(st.blockLines, "\n");
        var block := ParseClassBlock(blockText);
        block := block["identifier" := st.identifier];
        nextBlocks := blocks + [block];
        next := st.(inside := false, blockLines := [], closed := st.closed + [(st.identifier, blockText)]);
        EmittedAppend(st.closed, (st.identifier, blockText));
      } else {
        next := st.(blockLines := st.blockLines + [lineStripped]);
      }
    } else {
      next := st;
    }
  }

  /** parse_file on the lines of the file. */
  method ParseClassLines(lines: seq<string>) returns (blocks: seq<ClassBlock>)
    ensures blocks == ClassBlocks(lines)
  {
    var st := Start;
    blocks := [];
    var i := 0;
    while i < |lines|
      invariant 0 <= i <= |lines|
      invariant st == Scan(lines[..i])
      invariant blocks == Emitted(st.closed)
    {
      ScanStep(lines, i);
      st, blocks := ConsumeLine(st, blocks, lines[i]);
      i := i + 1;
    }
    WholePrefix(lines);
  }

  /** Blank and comment lines change nothing, in any state. */
  lemma SkippedLineIgnored(st: ClassScanState, line: string)
    requires IsSkipped(Strip(line))
    ensures Step(st, line) == st
  {
  }

  /** An opener line only arms the reader and becomes the identifier: it never
      becomes block content, even inside an open block. */
  lemma OpenerIsNotContent(st: ClassScanState, line: string)
    requires !IsSkipped(Strip(line)) && IsOpener(Strip(line))
    ensures Step(st, line) == st.(pending := true, identifier := Strip(line))
  {
  }

  /** Inside a block the first `}` line closes it, with no nesting count, and its
      own text is dropped; any other line is content. */
  lemma ClosesAtFirstBrace(st: ClassScanState, line: string)
    requires st.inside
    requires var t := Strip(line); !IsSkipped(t) && !IsOpener(t) && !(st.pending && '{' in t)
    ensures var t := Strip(line);
            && ('}' in t ==> Step(st, line) == st.(inside := false, blockLines := [],
                               closed := st.closed + [(st.identifier, Join(st.blockLines, "\n"))]))
            && ('}' !in t ==> Step(st, line) == st.(blockLines := st.blockLines + [t]))
  {
  }

  /** What the loop keeps true: the identifier is an opener line while a block is
      pending or open, every closed block carries an opener line, and nothing is
      buffered outside a block. */
  predicate Valid(st: ClassScanState)
  {
    && ((st.pending || st.inside) ==> IsOpener(st.identifier))
    && (!st.inside ==> st.blockLines == [])
    && forall j :: 0 <= j < |st.closed| ==> IsOpener(st.closed[j].0)
  }

  lemma StepValid(st: ClassScanState, line: string)
    requires Valid(st)
    ensures Valid(Step(st, line))
  {
    var t := Strip(line);
    var next := Step(st, line);
    if !IsSkipped(t) && !IsOpener(t) && !(st.pending && '{' in t) && st.inside && '}' in t {
      forall j | 0 <= j < |next.closed| ensures IsOpener(next.closed[j].0) {
        if j == |st.closed| {
          assert next.closed[j].0 == st.identifier;
        } else {
          assert next.closed[j] == st.closed[j];
        }
      }
    }
  }

  lemma {:induction false} ScanValid(lines: seq<string>)
    ensures Valid(Scan(lines))
  {
    if lines != [] {
      ScanValid(lines[..|lines| - 1]);
      StepValid(Scan(lines[..|lines| - 1]), lines[|lines| - 1]);
    }
  }

  /** Every returned block, even one with no fields, carries `identifier`, and it
      is an opener line: the one seen last before the block opened. */
  lemma EveryBlockIdentified(lines: seq<string>, j: int)
    requires 0 <= j < |ClassBlocks(lines)|
    ensures "identifier" in ClassBlocks(lines)[j]
    ensures IsOpener(ClassBlocks(lines)[j]["identifier"])
  {
    ScanValid(lines);
  }

  /** The number of lines whose stripped text has a `}`. */
  function Closers(lines: seq<string>): nat
  {
    if lines == [] then 0
    else Closers(lines[..|lines| - 1]) + if '}' in Strip(lines[|lines| - 1]) then 1 else 0
  }

  lemma StepBound(st: ClassScanState, line: string)
    ensures |Step(st, line).closed| <= |st.closed| + if '}' in Strip(line) then 1 else 0
  {
  }

  /** Each `}` line closes at most one block. */
  lemma {:induction false} ClassBlocksBound(lines: seq<string>)
    ensures |ClassBlocks(lines)| <= Closers(lines)
  {
    if lines != [] {
      ClassBlocksBound(lines[..|lines| - 1]);
      StepBound(Scan(lines[..|lines| - 1]), lines[|lines| - 1]);
    }
  }

  // ---------------------------------------------------------------- compute_parameters

  /** calc(field): floor((float(value) - 1) * 100), 0 when float() raises; a missing
      field reads as "1". */
  function Calc(block: ClassBlock, field: string): int
  {
    var text := if field in block then block[field] else "1";
    match ParseFloat(text)
    case Some(x) => ((x - 1.0) * 100.0).Floor
    case None => 0
  }

  /** The ten CharacterClass parameters, as the tuple compute_parameters returns. */
  datatype Parameters = Parameters(p1: int, p2: int, p3: int, p4: int, p5: int,
                                   p6: int, p7: int, p8: int, p9: int, p10: int)

  /** compute_parameters: the weapon, speed and jump boosts in their slots. */
  function ComputeParameters(block: ClassBlock): (r: Parameters)
    ensures r.p1 == 0 && r.p2 == 0 && r.p7 == 0 && r.p8 == 0
  {
    Parameters(0, 0, Calc(block, "swordBoost"), Calc(block, "daggerBoost"), Calc(block, "hammerBoost"),
               Calc(block, "axeBoost"), 0, 0, Calc(block, "speedBoost"), Calc(block, "jumpBoost"))
  }

  function ParametersText(p: Parameters): string
  {
    IntText(p.p1) + ", " + IntText(p.p2) + ", " + IntText(p.p3) + ", " + IntText(p.p4) + ", "
      + IntText(p.p5) + ", " + IntText(p.p6) + ", " + IntText(p.p7) + ", " + IntText(p.p8) + ", "
      + IntText(p.p9) + ", " + IntText(p.p10)
  }

  /** A missing boost contributes 0. */
  lemma CalcMissing(block: ClassBlock, field: string)
    requires field !in block
    ensures Calc(block, field) == 0
  {
    ParseFloatNat(1);
    assert NatText(1) == "1";
  }

  /** A boost that float() rejects contributes 0. */
  lemma CalcUnparsable(block: ClassBlock, field: string)
    requires field in block && ParseFloat(block[field]).None?
    ensures Calc(block, field) == 0
  {
  }

  /** A whole-number boost n contributes (n - 1) * 100. */
  lemma CalcWhole(block: ClassBlock, field: string, n: nat)
    requires field in block && block[field] == NatText(n)
    ensures Calc(block, field) == (n - 1) * 100
  {
    ParseFloatNat(n);
  }

  // ---------------------------------------------------------------- generate_class_code

  /** The class of a block: its `class` value stripped and lower-cased. */
  function ClassName(block: ClassBlock): string
  {
    Lower(Strip(if "class" in block then block["class"] else ""))
  }

  /** The ClassNames enum constant: upper case with '-' as '_'. */
  function EnumName(cls: string): string
  {
    Replace(Upper(cls), "-", "_")
  }

  /** The drawable resource: class_ and the class with '-' as '_'. */
  function Drawable(cls: string): string
  {
    "R.drawable.class_" + Replace(cls, "-", "_")
  }

  /** The Java line for a block with a class. */
  function ClassLine(block: ClassBlock): string
  {
    var cls := ClassName(block);
    "classList.add(new CharacterClass(ClassNames." + EnumName(cls) + ", "
      + ParametersText(ComputeParameters(block)) + ", " + Drawable(cls) + "));"
  }

  /** What generate_class_code appends for one block: nothing without a class. */
  function CodeFor(block: ClassBlock): seq<string>
  {
    if ClassName(block) == [] then [] else [ClassLine(block)]
  }

  /** The body of generate_class_code's loop for one block. */
  method BlockCode(block: ClassBlock) returns (piece: seq<string>)
    ensures piece == CodeFor(block)
  {
    var cls := Lower(Strip(if "class" in block then block["class"] else ""));
    if cls == [] {
      return [];
    }
    var params := ComputeParameters(block);
    var enumName := Replace(Upper(cls), "-", "_");
    var drawable := "R.drawable.class_" + Replace(cls, "-", "_");
    var codeLine := "classList.add(new CharacterClass(ClassNames." + enumName + ", "
      + ParametersText(params) + ", " + drawable + "));";
    piece := [codeLine];
  }

  /** generate_class_code over the parsed blocks: one line per block with a
      non-empty class, in block order. */
  method GenerateClassCode(blocks: seq<ClassBlock>) returns (codeLines: seq<string>)
    ensures codeLines == Concat(blocks, CodeFor)
  {
    codeLines := [];
    var i := 0;
    while i < |blocks|
      invariant 0 <= i <= |blocks|
      invariant codeLines == Concat(blocks[..i], CodeFor)
    {
      ConcatStep(blocks, i, CodeFor);
      var piece := BlockCode(blocks[i]);
      codeLines := codeLines + piece;
      i := i + 1;
    }
    WholePrefix(blocks);
  }

  /** The generator works block by block: the lines for two runs of blocks are the
      lines of each run, one after the other. */
  lemma ClassCodeAppend(a: seq<ClassBlock>, b: seq<ClassBlock>)
    ensures Concat(a + b, CodeFor) == Concat(a, CodeFor) + Concat(b, CodeFor)
  {
    ConcatAppend(a, b, CodeFor);
  }

  /** A block without a class is skipped; a block with one gives exactly its line. */
  lemma ClassCodeOne(block: ClassBlock)
    ensures Concat([block], CodeFor) == if ClassName(block) == [] then [] else [ClassLine(block)]
  {
    ConcatOne(block, CodeFor);
  }

  /** The enum constant holds no '-' and no lower-case letter. */
  lemma EnumNameShape(cls: string)
    ensures '-' !in EnumName(cls)
    ensures forall i :: 0 <= i < |EnumName(cls)| ==> !IsLowerChar(EnumName(cls)[i])
  {
    forall i | 0 <= i < |EnumName(cls)| ensures !IsLowerChar(EnumName(cls)[i]) {
      ReplaceCharRemoves(Upper(cls), '-', "_", EnumName(cls)[i]);
    }
    ReplaceCharRemoves(Upper(cls), '-', "_", '-');
  }

  /** The enum constant and the drawable name spell the same class: lower-casing
      the constant gives the drawable's suffix. */
  lemma EnumMatchesDrawable(block: ClassBlock)
    ensures var cls := ClassName(block);
            Drawable(cls) == "R.drawable.class_" + Lower(EnumName(cls))
  {
    var cls := ClassName(block);
    LowerReplaceChar(Upper(cls), '-', "_");
    LowerUpper(cls);
    LowerIdempotent(Strip(if "class" in block then block["class"] else ""));
  }
}
