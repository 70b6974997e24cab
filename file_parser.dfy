/** file_parser.py: the .enml reader. A line state machine finds `item … { … }`
    blocks (tracking brace depth by line), and each block's `key = value;` lines
    become a dict whose values are coerced to bool, int, float or string. */
module FileParser {
  import opened Text
  import opened Values

  // ---------------------------------------------------------------- values

  /** value.replace(".", "", 1): the text without its first '.'. */
  function WithoutFirstDot(v: string): string
  {
    if '.' in v then var (a, b) := SplitOnce(v, '.'); a + b else v
  }

  /** The coercion of a stripped value: bool for true/false in any case, int for
      digits, float for digits with one '.', and the string itself otherwise. */
  function Coerce(v: string): Value
  {
    if Lower(v) == "true" || Lower(v) == "false" then Bool(Lower(v) == "true")
    else if IsDigits(WithoutFirstDot(v)) then
      DigitTest(v);
      if '.' in v then Float(DecimalValue(v)) else Int(DigitsValue(v))
    else Str(v)
  }

  /** The digit test of the source accepts exactly the decimal literals. */
  lemma DigitTest(v: string)
    ensures IsDigits(WithoutFirstDot(v)) <==> IsDecimal(v)
  {
    if '.' in v {
      var (a, b) := SplitOnce(v, '.');
      if IsDigits(a + b) {
        assert forall i :: 0 <= i < |a| ==> (a + b)[i] == a[i];
        assert forall i :: 0 <= i < |b| ==> (a + b)[|a| + i] == b[i];
      }
    }
  }

  /** Only true/false, in any letter case, become bools. */
  lemma CoerceBool(v: string)
    ensures Coerce(v).Bool? <==> Lower(v) == "true" || Lower(v) == "false"
    ensures Coerce(v).Bool? ==> Coerce(v).b == (Lower(v) == "true")
  {
  }

  /** Digits with at most one '.' become numbers: int without a '.', float with one.
      Everything else that is not a bool stays the string it was (a leading '-',
      an empty value and a lone '.' among them). */
  lemma CoerceNumber(v: string)
    ensures Coerce(v).Int? <==> IsDigits(v)
    ensures Coerce(v).Float? <==> '.' in v && IsDecimal(v)
    ensures Coerce(v).Str? <==> !IsDecimal(v) && Lower(v) != "true" && Lower(v) != "false"
    ensures Coerce(v).Str? ==> Coerce(v).s == v
  {
    DigitTest(v);
    if IsDigits(v) {
      assert Lower(v)[0] == LowerChar(v[0]);
      assert IsDecimal(v);
      assert '.' !in v;
    }
    if Lower(v) == "true" || Lower(v) == "false" {
      assert Lower(v)[0] == LowerChar(v[0]);
      assert !IsDigit(v[0]);
      assert !IsDecimal(v) by {
        if '.' in v {
          var (a, b) := SplitOnce(v, '.');
          assert v == a + ['.'] + b;
          if a != [] {
            assert v[0] == a[0];
          }
        }
      }
    }
  }

  /** A number written by str() is read back as that number. */
  lemma CoerceReadsIntBack(n: nat)
    ensures Coerce(NatText(n)) == Int(n)
  {
    var t := NatText(n);
    CoerceNumber(t);
    assert Lower(t)[0] == LowerChar(t[0]);
    assert '.' !in t;
  }

  /** A bool written by str() is read back as that bool. */
  lemma CoerceReadsBoolBack(b: bool)
    ensures Coerce(Show(Bool(b))) == Bool(b)
  {
    if b {
      assert Lower("True") == "true";
    } else {
      assert Lower("False") == "false";
    }
  }

  // ---------------------------------------------------------------- one block

  /** The rule parse_enml_block applies to one line: drop everything from the first
      `//`, strip, and split a line with '=' at its first '='. The key is stripped;
      the value is stripped, loses its trailing ';' characters and is coerced. */
  function EnmlEntry(line: string): Option<(string, Value)>
  {
    var code := Strip(Before(line, "//"));
    if '=' in code then
      var (k, v) := SplitOnce(code, '=');
      Some((Strip(k), Coerce(RStripAny(Strip(v), {';'}))))
    else None
  }

  /** The dict parse_enml_block returns for a block's text. */
  function EnmlBlock(blockText: string): Entity
  {
    Assigned(Collect(SplitLines(Strip(blockText)), EnmlEntry))
  }

  /** A line without '=' (after the comment is cut) adds nothing; a line with one
      assigns its stripped key, which holds no '='. */
  lemma EnmlEntryShape(line: string)
    ensures var code := Strip(Before(line, "//"));
            ('=' !in code <==> EnmlEntry(line).None?)
            && (EnmlEntry(line).Some? ==> '=' !in EnmlEntry(line).value.0)
  {
    var code := Strip(Before(line, "//"));
    if '=' in code {
      var (k, v) := SplitOnce(code, '=');
      if '=' in Strip(k) {
        StripAnyKeeps(k, Whitespace, '=');
      }
    }
  }

  /** A written `key = value;` line is read back: the key as written and the value
      coerced, even when the value holds '='. */
  lemma EnmlEntryReadsLineBack(k: string, v: string)
    requires k != [] && '=' !in k && Strip(k) == k
    requires v != [] && v[0] !in Whitespace && v[|v| - 1] !in Whitespace && v[|v| - 1] != ';'
    requires !Contains(k + " = " + v + ";", "//")
    ensures EnmlEntry(k + " = " + v + ";") == Some((k, Coerce(v)))
  {
    var line := k + " = " + v + ";";
    WrittenLineIsCode(k, v);
    WrittenLineSplits(k, v);
    WrittenPartsStrip(k, v);
  }

  lemma WrittenLineIsCode(k: string, v: string)
    requires k != [] && Strip(k) == k
    requires !Contains(k + " = " + v + ";", "//")
    ensures Strip(Before(k + " = " + v + ";", "//")) == k + " = " + v + ";"
  {
    var line := k + " = " + v + ";";
    assert Before(line, "//") == line;
    StripAnyShape(k, Whitespace);
    assert line[0] == k[0];
    StripAnyOfClean(line, Whitespace);
  }

  lemma WrittenLineSplits(k: string, v: string)
    requires '=' !in k
    ensures SplitOnce(k + " = " + v + ";", '=') == (k + " ", " " + v + ";")
  {
    assert k + " = " + v + ";" == (k + " ") + ['='] + (" " + v + ";");
    SplitOnceAt(k + " ", '=', " " + v + ";");
  }

  lemma WrittenPartsStrip(k: string, v: string)
    requires k != [] && Strip(k) == k
    requires v != [] && v[0] !in Whitespace && v[|v| - 1] !in Whitespace && v[|v| - 1] != ';'
    ensures Strip(k + " ") == k
    ensures RStripAny(Strip(" " + v + ";"), {';'}) == v
  {
    StripAnyShape(k, Whitespace);
    StripAnyTrailing(k, " ", Whitespace);
    assert " " + v + ";" == " " + (v + ";");
    StripAnyLeading(" ", v + ";", Whitespace);
    RStripWrapped(v, ";", {';'});
  }

  /** parse_enml_block: fills a dict line by line; a duplicate key overwrites. */
  method ParseEnmlBlock(blockText: string) returns (item: Entity)
    ensures item == EnmlBlock(blockText)
  {
    var lines := SplitLines(Strip(blockText));
    item := map[];
    var i := 0;
    while i < |lines|
      invariant 0 <= i <= |lines|
      invariant item == Assigned(Collect(lines[..i], EnmlEntry))
    {
      var entry := EnmlEntry(lines[i]);
      AssignedStep(lines, i, EnmlEntry);
      if entry.Some? {
        item := item[entry.value.0 := entry.value.1];
      }
      i := i + 1;
    }
    WholePrefix(lines);
  }

  // ---------------------------------------------------------------- the line state machine

  /** The variables of the per-file loop of parse_files. Instead of the dicts
      emitted so far it keeps the text of every closed block; Emitted turns those
      texts into the dicts. */
  datatype ScanState = ScanState(
    pending: bool,          // an `item` line was seen and no block has opened since
    inside: bool,           // inside a block
    depth: int,             // brace depth inside the block
    blockLines: seq<string>,
    blocks: seq<string>)    // the joined text of each closed block, in order

  const Start := ScanState(false, false, 0, [], [])

  /** A line that announces an item block: its stripped text starts with `item`
      in any letter case. */
  predicate IsItemLine(t: string)
  {
    StartsWith(Lower(t), "item")
  }

  /** One iteration of the loop on a line. */
  function Step(st: ScanState, line: string): ScanState
  {
    StepOn(st, Strip(line))
  }

  /** One iteration of the loop, given the stripped line. */
  function StepOn(st: ScanState, t: string): ScanState
  {
    if IsItemLine(t) then st.(pending := true)
    else if st.pending && '{' in t then
      st.(inside := true, pending := false, depth := 1, blockLines := [After(t, '{')])
    else if st.inside then
      var d := st.depth + (if '{' in t then 1 else 0);
      if '}' in t && d - 1 == 0 then
        st.(inside := false, depth := 0, blockLines := [],
            blocks := st.blocks + [Join(st.blockLines, "\n")])
      else st.(depth := if '}' in t then d - 1 else d, blockLines := st.blockLines + [t])
    else st
  }

  /** The state after the loop has consumed the given lines. */
  function Scan(lines: seq<string>): ScanState
  {
    if lines == [] then Start else Step(Scan(lines[..|lines| - 1]), lines[|lines| - 1])
  }

  /** The dicts of the closed blocks, without the empty ones. */
  function Emitted(blocks: seq<string>): (r: seq<Entity>)
    ensures |r| <= |blocks|
    ensures forall j :: 0 <= j < |r| ==> r[j] != map[]
  {
    if blocks == [] then []
    else
      var item := EnmlBlock(blocks[|blocks| - 1]);
      Emitted(blocks[..|blocks| - 1]) + if item != map[] then [item] else []
  }

  /** What parse_files adds to the list of a file's type. */
  function FileItems(lines: seq<string>): seq<Entity>
  {
    Emitted(Scan(lines).blocks)
  }

  lemma EmittedStep(blocks: seq<string>, b: string)
    ensures Emitted(blocks + [b])
         == Emitted(blocks) + if EnmlBlock(b) != map[] then [EnmlBlock(b)] else []
  {
    assert (blocks + [b])[..|blocks|] == blocks;
  }

  /** One pass of the loop body of parse_files on the stripped line: the state
      moves as StepOn says, and a block closed by this line is parsed and kept
      when its dict is non-empty. */
  method ConsumeLine(st: ScanState, items: seq<Entity>, lineStripped: string)
    returns (next: ScanState, nextItems: seq<Entity>)
    requires items == Emitted(st.blocks)
    ensures next == StepOn(st, lineStripped)
    ensures nextItems == Emitted(next.blocks)
  {
    nextItems := items;
    if IsItemLine(lineStripped) {
      next := st.(pending := true);
    } else if st.pending && '{' in lineStripped {
      next := st.(inside := true, pending := false, depth := 1, blockLines := [After(lineStripped, '{')]);
    } else if st.inside {
      var braceDepth := st.depth;
      if '{' in lineStripped {
        braceDepth := braceDepth + 1;
      }
      if '}' in lineStripped {
        braceDepth := braceDepth - 1;
      }
      if '}' in lineStripped && braceDepth == 0 {
        next, nextItems := CloseBlock(st, items);
      } else {
        next := st.(depth := braceDepth, blockLines := st.blockLines + [lineStripped]);
      }
    } else {
      next := st;
    }
  }

  /** The closing branch of the loop body: the buffered lines are joined and
      parsed, and the dict is kept when it is non-empty. */
  method CloseBlock(st: ScanState, items: seq<Entity>) returns (next: ScanState, nextItems: seq<Entity>)
    requires items == Emitted(st.blocks)
    ensures next == st.(inside := false, depth := 0, blockLines := [],
                        blocks := st.blocks + [Join(st.blockLines, "\n")])
    ensures nextItems == Emitted(next.blocks)
  {
    var blockText := Join(st.blockLines, "\n");
    var itemData := ParseEnmlBlock(blockText);
    nextItems := items;
    if itemData != map[] {
      nextItems := items + [itemData];
    }
    next := st.(inside := false, depth := 0, blockLines := [], blocks := st.blocks + [blockText]);
    EmittedStep(st.blocks, blockText);
  }

  /** The dicts parse_files takes from one file's lines. */
  method ParseFileLines(lines: seq<string>) returns (items: seq<Entity>)
    ensures items == FileItems(lines)
  {
    var st := Start;
    items := [];
    var i := 0;
    while i < |lines|
      invariant 0 <= i <= |lines|
      invariant st == Scan(lines[..i])
      invariant items == Emitted(st.blocks)
    {
      ScanStep(lines, i);
      st, items := ConsumeLine(st, items, Strip(lines[i]));
      i := i + 1;
    }
    WholePrefix(lines);
  }

  lemma ScanStep(lines: seq<string>, i: int)
    requires 0 <= i < |lines|
    ensures Scan(lines[..i + 1]) == Step(Scan(lines[..i]), lines[i])
  {
    assert lines[..i + 1][..i] == lines[..i];
  }

  /** A line whose stripped, lower-cased text starts with `item` is only an opener
      marker: it never becomes block content, even inside an open block. */
  lemma ItemLineIsMarker(st: ScanState, line: string)
    requires StartsWith(Lower(Strip(line)), "item")
    ensures Step(st, line) == st.(pending := true)
  {
  }

  /** A block opens only on a `{` line seen while an opener is pending; its content
      starts with the text after the first `{` and its depth is 1. */
  lemma BlockOpens(st: ScanState, line: string)
    requires !StartsWith(Lower(Strip(line)), "item")
    ensures Step(st, line).inside && !st.inside ==> st.pending && '{' in Strip(line)
    ensures st.pending && '{' in Strip(line) ==>
      var t := Strip(line);
      Step(st, line) == st.(inside := true, pending := false, depth := 1, blockLines := [After(t, '{')])
  {
  }

  /** What the loop keeps true: a block is open exactly at a positive depth, and
      nothing is buffered outside a block. */
  predicate Valid(st: ScanState)
  {
    && (st.inside ==> st.depth >= 1)
    && (!st.inside ==> st.depth == 0 && st.blockLines == [])
  }

  lemma StepValid(st: ScanState, line: string)
    requires Valid(st)
    ensures Valid(Step(st, line))
  {
    StepOnValid(st, Strip(line));
  }

  lemma StepOnValid(st: ScanState, t: string)
    requires Valid(st)
    ensures Valid(StepOn(st, t))
  {
    if !IsItemLine(t) && !(st.pending && '{' in t) && st.inside {
      var d := st.depth + (if '{' in t then 1 else 0);
      assert d >= 1;
    }
  }

  lemma {:induction false} ScanValid(lines: seq<string>)
    ensures Valid(Scan(lines))
  {
    if lines != [] {
      ScanValid(lines[..|lines| - 1]);
      StepValid(Scan(lines[..|lines| - 1]), lines[|lines| - 1]);
    }
  }

  /** Inside a block the depth moves by presence of braces, not by their number:
      +1 for a line with `{`, -1 for a line with `}`; at depth 0 the block closes
      without that line's text. */
  lemma DepthByPresence(st: ScanState, line: string)
    requires Valid(st) && st.inside
    requires !StartsWith(Lower(Strip(line)), "item") && !(st.pending && '{' in Strip(line))
    ensures var t := Strip(line);
            var d := st.depth + (if '{' in t then 1 else 0) - (if '}' in t then 1 else 0);
            var next := Step(st, line);
            && (d > 0 ==> next.inside && next.depth == d && next.blockLines == st.blockLines + [t]
                          && next.blocks == st.blocks)
            && (d == 0 ==> !next.inside && next.blockLines == []
                           && next.blocks == st.blocks + [Join(st.blockLines, "\n")])
  {
  }

  /** Only lines with `}` close blocks, so an unterminated block at the end of a
      file emits nothing: the items are those emitted before the trailing lines. */
  lemma {:induction false} NoCloseNoOutput(lines: seq<string>, rest: seq<string>)
    requires forall j :: 0 <= j < |rest| ==> '}' !in Strip(rest[j])
    ensures FileItems(lines + rest) == FileItems(lines)
  {
    NoCloseSameBlocks(lines, rest);
  }

  lemma {:induction false} NoCloseSameBlocks(lines: seq<string>, rest: seq<string>)
    requires forall j :: 0 <= j < |rest| ==> '}' !in Strip(rest[j])
    ensures Scan(lines + rest).blocks == Scan(lines).blocks
  {
    if rest == [] {
      assert lines + rest == lines;
    } else {
      var init := rest[..|rest| - 1];
      NoCloseSameBlocks(lines, init);
      AppendInit(lines, rest);
      StepNoClose(Scan(lines + init), Strip(rest[|rest| - 1]));
    }
  }

  /** A line without `}` closes no block. */
  lemma StepNoClose(st: ScanState, t: string)
    requires '}' !in t
    ensures StepOn(st, t).blocks == st.blocks
  {
  }

  /** The number of lines whose stripped text has a `}`. */
  function Closers(lines: seq<string>): nat
  {
    if lines == [] then 0
    else Closers(lines[..|lines| - 1]) + if '}' in Strip(lines[|lines| - 1]) then 1 else 0
  }

  /** Each `}` line emits at most one dict. */
  lemma {:induction false} ScanOutputBound(lines: seq<string>)
    ensures |FileItems(lines)| <= Closers(lines)
  {
    ClosedBlocksBound(lines);
  }

  lemma {:induction false} ClosedBlocksBound(lines: seq<string>)
    ensures |Scan(lines).blocks| <= Closers(lines)
  {
    if lines != [] {
      ClosedBlocksBound(lines[..|lines| - 1]);
    }
  }

  /** A line that can sit inside a written block: already stripped (no whitespace
      at either end), with no brace and no `item` prefix. */
  predicate BodyLine(l: string)
  {
    (l != [] ==> l[0] !in Whitespace && l[|l| - 1] !in Whitespace)
    && '{' !in l && '}' !in l && !IsItemLine(l)
  }

  /** The brace lines of a written block are already stripped and are no openers. */
  lemma BraceLines()
    ensures Strip("{") == "{" && !IsItemLine("{") && After("{", '{') == ""
    ensures Strip("}") == "}" && !IsItemLine("}")
  {
    StripAnyOfClean("{", Whitespace);
    StripAnyOfClean("}", Whitespace);
    assert !StartsWith(Lower("{"), "item");
    assert !StartsWith(Lower("}"), "item");
  }

  /** The opener line and the `{` line open a block with an empty first line. */
  lemma StepOpen(opener: string)
    requires IsItemLine(Strip(opener))
    ensures Step(Step(Start, opener), "{") == ScanState(false, true, 1, [""], [])
  {
    BraceLines();
  }

  /** A body line inside a block at depth 1 is buffered as it is. */
  lemma StepBody(st: ScanState, l: string)
    requires st.inside && st.depth == 1 && !st.pending && BodyLine(l)
    ensures Step(st, l) == st.(blockLines := st.blockLines + [l])
  {
    StripAnyOfClean(l, Whitespace);
  }

  /** The `}` line closes a block at depth 1 and keeps its joined text. */
  lemma StepClose(st: ScanState)
    requires st.inside && st.depth == 1 && !st.pending
    ensures Step(st, "}") == st.(inside := false, depth := 0, blockLines := [],
                                 blocks := st.blocks + [Join(st.blockLines, "\n")])
  {
    BraceLines();
  }

  predicate BodyLines(body: seq<string>)
  {
    forall j :: 0 <= j < |body| ==> BodyLine(body[j])
  }

  /** The opener line and the `{` line, read from the start of a file. */
  lemma ScanOpen(opener: string)
    requires IsItemLine(Strip(opener))
    ensures Reading(Scan([opener, "{"]), [""])
  {
    var ls := [opener, "{"];
    ScanStep(ls, 0);
    ScanStep(ls, 1);
    AppendParts([], ls);
    WholePrefix(ls);
    StepOpen(opener);
  }

  /** A block is open at depth 1, with the given lines buffered and nothing closed. */
  predicate Reading(st: ScanState, buffered: seq<string>)
  {
    !st.pending && st.inside && st.depth == 1 && st.blockLines == buffered && st.blocks == []
  }

  /** While the body of a block is read, each line is buffered as it is. */
  lemma {:induction false} ScanBody(ls: seq<string>, k: nat, n: nat, buffered: seq<string>)
    requires k <= n <= |ls|
    requires Reading(Scan(ls[..k]), buffered)
    requires forall j :: k <= j < n ==> BodyLine(ls[j])
    ensures Reading(Scan(ls[..n]), buffered + ls[k..n])
    decreases n
  {
    if n == k {
      AppendEmptySlice(buffered, ls, k);
    } else {
      ScanBody(ls, k, n - 1, buffered);
      ScanBodyLine(ls, k, n, buffered);
    }
  }

  /** One more body line is buffered and nothing else changes. */
  lemma ScanBodyLine(ls: seq<string>, k: nat, n: nat, buffered: seq<string>)
    requires k < n <= |ls| && BodyLine(ls[n - 1])
    requires Reading(Scan(ls[..n - 1]), buffered + ls[k..n - 1])
    ensures Reading(Scan(ls[..n]), buffered + ls[k..n])
  {
    ScanStep(ls, n - 1);
    StepBody(Scan(ls[..n - 1]), ls[n - 1]);
    AppendSliceStep(buffered, ls, k, n);
  }

  /** After the opener, `{` and the body lines, the block is still open with the
      body buffered behind the empty text that followed `{`. */
  lemma ScanWritten(opener: string, body: seq<string>)
    requires IsItemLine(Strip(opener)) && BodyLines(body)
    ensures Reading(Scan([opener, "{"] + body), [""] + body)
  {
    var ls := [opener, "{"] + body;
    ScanOpen(opener);
    AppendParts([opener, "{"], body);
    WholePrefix(ls);
    ScanBody(ls, 2, |ls|, [""]);
  }

  /** A block written with its own opener line, `{`, its body lines and `}` is read
      back as exactly one dict: the one parse_enml_block gives for its body. */
  lemma BlockReadsBack(opener: string, body: seq<string>)
    requires IsItemLine(Strip(opener)) && BodyLines(body)
    requires EnmlBlock(Join([""] + body, "\n")) != map[]
    ensures FileItems([opener, "{"] + body + ["}"]) == [EnmlBlock(Join([""] + body, "\n"))]
  {
    var text := Join([""] + body, "\n");
    var open := [opener, "{"] + body;
    ScanWritten(opener, body);
    AppendInit(open, ["}"]);
    assert open + ["}"][..0] == open;
    StepClose(Scan(open));
    assert Scan(open + ["}"]).blocks == [text];
    assert [text][..0] == [];
  }

  // ---------------------------------------------------------------- all files

  datatype SourceFile = SourceFile(name: string, lines: seq<string>)

  /** parsed_data after the given files (in listing order) have been read: one
      list per mapped type, each holding the blocks of the files of that type. */
  function ParsedData(files: seq<SourceFile>, fileToType: map<string, string>): map<string, seq<Entity>>
  {
    if files == [] then map t | t in fileToType.Values :: []
    else
      var prior := ParsedData(files[..|files| - 1], fileToType);
      var f := files[|files| - 1];
      if EndsWith(f.name, ".enml") && f.name in fileToType && fileToType[f.name] in prior then
        prior[fileToType[f.name] := prior[fileToType[f.name]] + FileItems(f.lines)]
      else prior
  }

  /** Every mapped type has a list, whatever the files hold. */
  lemma {:induction false} ParsedDataKeys(files: seq<SourceFile>, fileToType: map<string, string>)
    ensures ParsedData(files, fileToType).Keys == fileToType.Values
  {
    if files != [] {
      ParsedDataKeys(files[..|files| - 1], fileToType);
    }
  }

  /** parse_files over the directory listing. */
  method ParseFiles(files: seq<SourceFile>, fileToType: map<string, string>)
    returns (parsed: map<string, seq<Entity>>)
    ensures parsed == ParsedData(files, fileToType)
  {
    parsed := map t | t in fileToType.Values :: [];
    var i := 0;
    while i < |files|
      invariant 0 <= i <= |files|
      invariant parsed == ParsedData(files[..i], fileToType)
    {
      assert files[..i + 1][..i] == files[..i];
      var f := files[i];
      ParsedDataKeys(files[..i], fileToType);
      if EndsWith(f.name, ".enml") && f.name in fileToType {
        var itemType := fileToType[f.name];
        var items := ParseFileLines(f.lines);
        parsed := parsed[itemType := parsed[itemType] + items];
      }
      i := i + 1;
    }
    WholePrefix(files);
  }
}
