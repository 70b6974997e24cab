/** enemy_parser.py: the reader of .character files. The character blocks and the
    equipped-item blocks of a file are found by two non-greedy patterns; each
    character gets the item totals of its file and the file's stem. The enemy list
    is sorted by resistance and rendered as Java constructor lines or as text. */
module EnemyParser {
  import opened Text
  import opened Values
  import opened Sorting
  import FileParser

  // ---------------------------------------------------------------- one block

  /** The value text float() is tried on: stripped, freed of trailing ';' and of
      surrounding double quotes. */
  function ValueText(v: string): string
  {
    StripAny(RStripAny(Strip(v), {';'}), {'"'})
  }

  /** The value a character line stores: the float the text denotes, or the text. */
  function Numeric(t: string): (r: Value)
    ensures ParseFloat(t).Some? ==> r == Float(ParseFloat(t).value)
    ensures ParseFloat(t).None? ==> r == Str(t)
  {
    match ParseFloat(t)
    case Some(x) => Float(x)
    case None => Str(t)
  }

  /** The rule parse_character_block applies to one line. */
  function CharacterEntry(line: string): Option<(string, Value)>
  {
    var code := Strip(Before(line, "//"));
    if '=' in code then
      var (k, v) := SplitOnce(code, '=');
      Some((Strip(k), Numeric(ValueText(v))))
    else None
  }

  /** The dict parse_character_block returns for a block's text. */
  function CharacterFields(blockText: string): Entity
  {
    Assigned(Collect(SplitLines(Strip(blockText)), CharacterEntry))
  }

  /** A written `key = value;` line is read back as its key, with the value as a
      float when float() accepts it and as the text otherwise. */
  lemma CharacterEntryReadsLineBack(k: string, v: string)
    requires k != [] && '=' !in k && Strip(k) == k
    requires v != [] && v[0] !in Whitespace && v[|v| - 1] !in Whitespace && v[|v| - 1] != ';'
    requires v[0] != '"' && v[|v| - 1] != '"'
    requires !Contains(k + " = " + v + ";", "//")
    ensures CharacterEntry(k + " = " + v + ";") == Some((k, Numeric(v)))
  {
    var line := k + " = " + v + ";";
    FileParser.WrittenLineIsCode(k, v);
    FileParser.WrittenLineSplits(k, v);
    FileParser.WrittenPartsStrip(k, v);
    assert ValueText(" " + v + ";") == StripAny(v, {'"'});
    StripAnyOfClean(v, {'"'});
    assert '=' in line by { assert line[|k| + 1] == '='; }
  }

  /** A quoted value `key = "text";` is read back without its quotes. */
  lemma CharacterEntryReadsQuotedBack(k: string, v: string)
    requires k != [] && '=' !in k && Strip(k) == k
    requires v != [] && v[0] != '"' && v[|v| - 1] != '"'
    requires !Contains(k + " = \"" + v + "\";", "//")
    ensures CharacterEntry(k + " = \"" + v + "\";") == Some((k, Numeric(v)))
  {
    var q := "\"" + v + "\"";
    var line := k + " = " + q + ";";
    assert k + " = \"" + v + "\";" == line;
    QuotedValueText(k, v);
    FileParser.WrittenLineIsCode(k, q);
    FileParser.WrittenLineSplits(k, q);
    assert '=' in line by { assert line[|k| + 1] == '='; }
  }

  lemma QuotedValueText(k: string, v: string)
    requires k != [] && Strip(k) == k
    requires v != [] && v[0] != '"' && v[|v| - 1] != '"'
    ensures Strip(k + " ") == k
    ensures ValueText(" " + ("\"" + v + "\"") + ";") == v
  {
    var q := "\"" + v + "\"";
    assert q[0] == '"' && q[|q| - 1] == '"' && '"' !in Whitespace;
    FileParser.WrittenPartsStrip(k, q);
    QuotesStripped(v);
  }

  lemma QuotesStripped(v: string)
    requires v != [] && v[0] != '"' && v[|v| - 1] != '"'
    ensures StripAny("\"" + v + "\"", {'"'}) == v
  {
    StripAnyWrapped("\"", v, "\"", {'"'});
  }

  /** parse_character_block: fills a dict line by line; a duplicate key overwrites. */
  method ParseCharacterBlock(blockText: string) returns (enemy: Entity)
    ensures enemy == CharacterFields(blockText)
  {
    var lines := SplitLines(Strip(blockText));
    enemy := map[];
    var i := 0;
    while i < |lines|
      invariant 0 <= i <= |lines|
      invariant enemy == Assigned(Collect(lines[..i], CharacterEntry))
    {
      var entry := CharacterEntry(lines[i]);
      AssignedStep(lines, i, CharacterEntry);
      if entry.Some? {
        enemy := enemy[entry.value.0 := entry.value.1];
      }
      i := i + 1;
    }
    WholePrefix(lines);
  }

  // ---------------------------------------------------------------- the block patterns

  /** Where the head of a block match at the start of s ends: the keyword, a digit
      when the pattern asks for one (`\d`), any whitespace, then `{`. None when no
      head starts here. */
  function HeadEnd(s: string, kw: string, digit: bool): (r: Option<nat>)
    ensures r.Some? ==> 0 < r.value <= |s|
  {
    if !StartsWith(s, kw) then None
    else
      var afterKw := s[|kw|..];
      if digit && (afterKw == [] || !IsDigit(afterKw[0])) then None
      else
        var t := LStripAny(if digit then afterKw[1..] else afterKw, Whitespace);
        if t == [] || t[0] != '{' then None else Some(|s| - |t| + 1)
  }

  /** A block match at the start of s: the body is the shortest text after the head
      up to the next `}` (the lazy `(.*?)` with DOTALL); r is the body and the text
      after that `}`. None when no match starts here. */
  function MatchAt(s: string, kw: string, digit: bool): (r: Option<(string, string)>)
    ensures r.Some? ==> '}' !in r.value.0 && |r.value.1| < |s|
  {
    var p := HeadEnd(s, kw, digit);
    if p.None? || '}' !in s[p.value..] then None
    else Some(SplitOnce(s[p.value..], '}'))
  }

  /** re.findall of the pattern: scanning left to right, a match is taken where one
      starts and the scan resumes after it; elsewhere the scan moves one character on. */
  function FindBlocks(s: string, kw: string, digit: bool): (r: seq<string>)
    ensures forall i :: 0 <= i < |r| ==> '}' !in r[i]
    ensures |r| <= |s|
    decreases |s|
  {
    if s == [] then []
    else
      var m := MatchAt(s, kw, digit);
      if m.Some? then [m.value.0] + FindBlocks(m.value.1, kw, digit)
      else FindBlocks(s[1..], kw, digit)
  }

  function CharacterBlocks(content: string): seq<string>
  {
    FindBlocks(content, "character", false)
  }

  function ItemBlocks(content: string): seq<string>
  {
    FindBlocks(content, "equippedItem", true)
  }

  /** The text of one written block: the head, `{`, the body, `}`. */
  function Written(head: string, body: string): string
  {
    head + "{" + body + "}"
  }

  function WrittenAll(head: string, bodies: seq<string>): string
  {
    if bodies == [] then [] else Written(head, bodies[0]) + WrittenAll(head, bodies[1..])
  }

  /** A written block followed by any text is matched with its own body. */
  lemma MatchWritten(kw: string, tag: string, body: string, rest: string, digit: bool)
    requires if digit then |tag| == 1 && IsDigit(tag[0]) else tag == []
    requires '}' !in body
    ensures MatchAt(Written(kw + tag, body) + rest, kw, digit) == Some((body, rest))
  {
    var tail := body + ['}'] + rest;
    assert Written(kw + tag, body) + rest == kw + tag + ['{'] + tail;
    AfterHeadWritten(kw, tag, tail, digit);
    SplitOnceAt(body, '}', rest);
  }

  lemma AfterHeadWritten(kw: string, tag: string, tail: string, digit: bool)
    requires if digit then |tag| == 1 && IsDigit(tag[0]) else tag == []
    ensures var s := kw + tag + ['{'] + tail;
      HeadEnd(s, kw, digit).Some? && s[HeadEnd(s, kw, digit).value..] == tail
  {
    var s := kw + tag + ['{'] + tail;
    assert s[..|kw|] == kw;
    assert StartsWith(s, kw);
    var afterKw := s[|kw|..];
    assert afterKw == tag + ['{'] + tail;
    var afterTag := if digit then afterKw[1..] else afterKw;
    assert afterTag == ['{'] + tail;
    assert afterTag[0] == '{' && '{' !in Whitespace;
    assert LStripAny(afterTag, Whitespace) == afterTag;
    assert s[|s| - |tail|..] == tail;
  }

  /** Blocks written one after the other are all found back, in order. */
  lemma {:induction false} FindWrittenBlocks(kw: string, tag: string, bodies: seq<string>, digit: bool)
    requires if digit then |tag| == 1 && IsDigit(tag[0]) else tag == []
    requires forall i :: 0 <= i < |bodies| ==> '}' !in bodies[i]
    ensures FindBlocks(WrittenAll(kw + tag, bodies), kw, digit) == bodies
  {
    if bodies != [] {
      var rest := WrittenAll(kw + tag, bodies[1..]);
      MatchWritten(kw, tag, bodies[0], rest, digit);
      FindWrittenBlocks(kw, tag, bodies[1..], digit);
      assert bodies == [bodies[0]] + bodies[1..];
    }
  }

  /** Without a `}` no pattern can match. */
  lemma {:induction false} NoBraceNoBlocks(s: string, kw: string, digit: bool)
    requires '}' !in s
    ensures FindBlocks(s, kw, digit) == []
    decreases |s|
  {
    if s != [] {
      var p := HeadEnd(s, kw, digit);
      if p.Some? {
        forall i | 0 <= i < |s[p.value..]| ensures s[p.value..][i] != '}' {
          assert s[p.value..][i] == s[p.value + i];
        }
      }
      NoBraceNoBlocks(s[1..], kw, digit);
    }
  }

  // ---------------------------------------------------------------- item totals

  /** The running totals of parse_file: damage and armor are summed, the two boosts
      multiplied. */
  datatype ItemStats = ItemStats(damage: real, armor: real, speedBoost: real, jumpImpulseBoost: real)

  const NoItems := ItemStats(0.0, 0.0, 1.0, 1.0)

  /** `item_stats[key] += val` (or `*=`) raises TypeError on a non-empty string;
      a falsy value is skipped and never used. */
  predicate StatUsable(v: Value)
  {
    !Truthy(v) || IsNumber(v)
  }

  /** An item whose stats the loop can take without raising. */
  predicate Addable(item: Entity)
  {
    && StatUsable(Get(item, "damage", Null))
    && StatUsable(Get(item, "armor", Null))
    && StatUsable(Get(item, "speedBoost", Null))
    && StatUsable(Get(item, "jumpImpulseBoost", Null))
  }

  predicate AllAddable(items: seq<Entity>)
  {
    forall i :: 0 <= i < |items| ==> Addable(items[i])
  }

  /** What a value adds to a sum: itself when truthy, nothing otherwise (a truthy
      string never gets here: the loop raises on it, see Addable). */
  function Term(v: Value): real
  {
    if Truthy(v) && IsNumber(v) then AsReal(v) else 0.0
  }

  /** What a value contributes to a product: itself when truthy, 1 otherwise. */
  function Factor(v: Value): real
  {
    if Truthy(v) && IsNumber(v) then AsReal(v) else 1.0
  }

  /** One item's pass of the `for key in item_stats` loop. */
  function Accumulate(st: ItemStats, item: Entity): ItemStats
  {
    ItemStats(
      st.damage + Term(Get(item, "damage", Null)),
      st.armor + Term(Get(item, "armor", Null)),
      st.speedBoost * Factor(Get(item, "speedBoost", Null)),
      st.jumpImpulseBoost * Factor(Get(item, "jumpImpulseBoost", Null)))
  }

  /** The totals over the parsed item blocks of a file. */
  function ItemTotals(items: seq<Entity>): ItemStats
  {
    if items == [] then NoItems
    else Accumulate(ItemTotals(items[..|items| - 1]), items[|items| - 1])
  }

  /** Totals of two runs of items taken together. */
  function Combine(a: ItemStats, b: ItemStats): ItemStats
  {
    ItemStats(a.damage + b.damage, a.armor + b.armor,
              a.speedBoost * b.speedBoost, a.jumpImpulseBoost * b.jumpImpulseBoost)
  }

  /** The totals of a file split in two are the combined totals of the parts. */
  lemma {:induction false} ItemTotalsAppend(a: seq<Entity>, b: seq<Entity>)
    ensures ItemTotals(a + b) == Combine(ItemTotals(a), ItemTotals(b))
  {
    if b == [] {
      assert a + b == a;
    } else {
      var init := b[..|b| - 1];
      var last := b[|b| - 1];
      ItemTotalsAppend(a, init);
      AppendInit(a, b);
      assert ItemTotals(a + b) == Accumulate(ItemTotals(a + init), last);
      assert ItemTotals(b) == Accumulate(ItemTotals(init), last);
      AccumulateCombine(ItemTotals(a), ItemTotals(init), last);
    }
  }

  lemma AccumulateCombine(x: ItemStats, y: ItemStats, item: Entity)
    ensures Accumulate(Combine(x, y), item) == Combine(x, Accumulate(y, item))
  {
    var f := Factor(Get(item, "speedBoost", Null));
    var g := Factor(Get(item, "jumpImpulseBoost", Null));
    assert (x.speedBoost * y.speedBoost) * f == x.speedBoost * (y.speedBoost * f);
    assert (x.jumpImpulseBoost * y.jumpImpulseBoost) * g == x.jumpImpulseBoost * (y.jumpImpulseBoost * g);
  }

  /** The order of the item blocks does not change the totals. */
  lemma ItemTotalsOrderFree(a: seq<Entity>, b: seq<Entity>)
    ensures ItemTotals(a + b) == ItemTotals(b + a)
  {
    ItemTotalsAppend(a, b);
    ItemTotalsAppend(b, a);
    var x, y := ItemTotals(a), ItemTotals(b);
    assert x.speedBoost * y.speedBoost == y.speedBoost * x.speedBoost;
    assert x.jumpImpulseBoost * y.jumpImpulseBoost == y.jumpImpulseBoost * x.jumpImpulseBoost;
  }

  /** An item that names none of the four stats leaves the totals as they were. */
  lemma ItemWithoutStats(items: seq<Entity>, item: Entity)
    requires "damage" !in item && "armor" !in item && "speedBoost" !in item && "jumpImpulseBoost" !in item
    ensures ItemTotals(items + [item]) == ItemTotals(items)
  {
    assert (items + [item])[..|items|] == items;
  }

  /** The `_items` dict stored on each character. */
  function ItemsValue(st: ItemStats): Value
  {
    Dict(["damage", "armor", "speedBoost", "jumpImpulseBoost"],
         map["damage" := Float(st.damage), "armor" := Float(st.armor),
             "speedBoost" := Float(st.speedBoost), "jumpImpulseBoost" := Float(st.jumpImpulseBoost)])
  }

  /** The dicts of a list of block texts. */
  function Parsed(blocks: seq<string>): (r: seq<Entity>)
    ensures |r| == |blocks|
  {
    if blocks == [] then [] else Parsed(blocks[..|blocks| - 1]) + [CharacterFields(blocks[|blocks| - 1])]
  }

  lemma {:induction false} ParsedAt(blocks: seq<string>, i: int)
    requires 0 <= i < |blocks|
    ensures Parsed(blocks)[i] == CharacterFields(blocks[i])
  {
    if i < |blocks| - 1 {
      ParsedAt(blocks[..|blocks| - 1], i);
    }
  }

  /** The stats loop on one parsed item. */
  method AddItem(stats: ItemStats, parsed: Entity) returns (next: ItemStats)
    requires Addable(parsed)
    ensures next == Accumulate(stats, parsed)
  {
    next := stats;
    var damage := Get(parsed, "damage", Null);
    if Truthy(damage) { next := next.(damage := next.damage + AsReal(damage)); }
    var armor := Get(parsed, "armor", Null);
    if Truthy(armor) { next := next.(armor := next.armor + AsReal(armor)); }
    var speedBoost := Get(parsed, "speedBoost", Null);
    if Truthy(speedBoost) { next := next.(speedBoost := next.speedBoost * AsReal(speedBoost)); }
    var jumpBoost := Get(parsed, "jumpImpulseBoost", Null);
    if Truthy(jumpBoost) { next := next.(jumpImpulseBoost := next.jumpImpulseBoost * AsReal(jumpBoost)); }
  }

  /** The inner loops of parse_file: every item block is parsed again and added in. */
  method AggregateItemStats(itemBlocks: seq<string>) returns (stats: ItemStats)
    requires AllAddable(Parsed(itemBlocks))
    ensures stats == ItemTotals(Parsed(itemBlocks))
  {
    ghost var items := Parsed(itemBlocks);
    stats := NoItems;
    var i := 0;
    while i < |itemBlocks|
      invariant 0 <= i <= |itemBlocks|
      invariant stats == ItemTotals(items[..i])
    {
      stats := AggregateNext(itemBlocks, i, stats);
      i := i + 1;
    }
    WholePrefix(items);
  }

  /** One pass of the item loop: the i-th block parsed and added to the totals. */
  method AggregateNext(itemBlocks: seq<string>, i: int, stats: ItemStats) returns (stats': ItemStats)
    requires AllAddable(Parsed(itemBlocks)) && 0 <= i < |itemBlocks|
    requires stats == ItemTotals(Parsed(itemBlocks)[..i])
    ensures stats' == ItemTotals(Parsed(itemBlocks)[..i + 1])
  {
    var parsed := ParseCharacterBlock(itemBlocks[i]);
    ParsedAt(itemBlocks, i);
    PrefixStep(Parsed(itemBlocks), i);
    stats' := AddItem(stats, parsed);
  }

  // ---------------------------------------------------------------- parse_file

  /** A character as parse_file stores it: its own fields, the file's item totals
      and the file's stem. */
  function EnemyOf(fields: Entity, totals: ItemStats, stem: string): Entity
  {
    fields["_items" := ItemsValue(totals)]["_filename" := Str(stem)]
  }

  function Enemies(blocks: seq<string>, totals: ItemStats, stem: string): (r: seq<Entity>)
    ensures |r| == |blocks|
  {
    if blocks == [] then []
    else Enemies(blocks[..|blocks| - 1], totals, stem) + [EnemyOf(CharacterFields(blocks[|blocks| - 1]), totals, stem)]
  }

  /** parse_file sums the item blocks once per character block, so their values
      must be addable only when the file has a character block. */
  predicate Readable(content: string)
  {
    CharacterBlocks(content) != [] ==> AllAddable(Parsed(ItemBlocks(content)))
  }

  /** The enemies parse_file returns for a file's content and stem. */
  function FileEnemies(content: string, stem: string): seq<Entity>
  {
    Enemies(CharacterBlocks(content), ItemTotals(Parsed(ItemBlocks(content))), stem)
  }

  lemma EnemiesStep(blocks: seq<string>, totals: ItemStats, stem: string, i: int)
    requires 0 <= i < |blocks|
    ensures Enemies(blocks[..i + 1], totals, stem)
         == Enemies(blocks[..i], totals, stem) + [EnemyOf(CharacterFields(blocks[i]), totals, stem)]
  {
    PrefixStep(blocks, i);
  }

  /** One enemy per character block, in file order: the block's own fields with the
      file's item totals and stem added. */
  lemma {:induction false} EnemiesAt(blocks: seq<string>, totals: ItemStats, stem: string, i: int)
    requires 0 <= i < |blocks|
    ensures Enemies(blocks, totals, stem)[i] == EnemyOf(CharacterFields(blocks[i]), totals, stem)
  {
    if i < |blocks| - 1 {
      EnemiesAt(blocks[..|blocks| - 1], totals, stem, i);
    }
  }

  /** Every enemy of a file carries the file's stem and the same item totals, and
      keeps each field of its block other than those two. */
  lemma FileEnemyFields(content: string, stem: string, i: int)
    requires 0 <= i < |CharacterBlocks(content)|
    ensures var e := FileEnemies(content, stem)[i];
      && "_filename" in e && e["_filename"] == Str(stem)
      && "_items" in e && e["_items"] == ItemsValue(ItemTotals(Parsed(ItemBlocks(content))))
      && forall k :: k in CharacterFields(CharacterBlocks(content)[i]) && k != "_items" && k != "_filename" ==>
           k in e && e[k] == CharacterFields(CharacterBlocks(content)[i])[k]
  {
    var totals := ItemTotals(Parsed(ItemBlocks(content)));
    EnemiesAt(CharacterBlocks(content), totals, stem, i);
    EnemyOfKeeps(CharacterFields(CharacterBlocks(content)[i]), totals, stem);
  }

  lemma EnemyOfKeeps(fields: Entity, totals: ItemStats, stem: string)
    ensures var e := EnemyOf(fields, totals, stem);
      && "_filename" in e && e["_filename"] == Str(stem)
      && "_items" in e && e["_items"] == ItemsValue(totals)
      && forall k :: k in fields && k != "_items" && k != "_filename" ==> k in e && e[k] == fields[k]
  {
  }

  /** The body of the parse_file loop for one character block. */
  method BuildEnemy(block: string, itemBlocks: seq<string>, stem: string) returns (character: Entity)
    requires AllAddable(Parsed(itemBlocks))
    ensures character == EnemyOf(CharacterFields(block), ItemTotals(Parsed(itemBlocks)), stem)
  {
    character := ParseCharacterBlock(block);
    var itemStats := AggregateItemStats(itemBlocks);
    character := character["_items" := ItemsValue(itemStats)];
    character := character["_filename" := Str(stem)];
  }

  /** parse_file on the content of a file: the file reading is left to the caller. */
  method ParseFile(content: string, stem: string) returns (enemies: seq<Entity>)
    requires Readable(content)
    ensures enemies == FileEnemies(content, stem)
  {
    var characterBlocks := FindBlocks(content, "character", false);
    var itemBlocks := FindBlocks(content, "equippedItem", true);
    enemies := [];
    var i := 0;
    while i < |characterBlocks|
      invariant 0 <= i <= |characterBlocks|
      invariant enemies == Enemies(characterBlocks[..i], ItemTotals(Parsed(itemBlocks)), stem)
    {
      var character := BuildEnemy(characterBlocks[i], itemBlocks, stem);
      EnemiesStep(characterBlocks, ItemTotals(Parsed(itemBlocks)), stem, i);
      enemies := enemies + [character];
      i := i + 1;
    }
    WholePrefix(characterBlocks);
  }

  /** A .character file as the directory scan hands it over. */
  datatype CharacterFile = CharacterFile(content: string, stem: string)

  predicate FilesReadable(files: seq<CharacterFile>)
  {
    forall i :: 0 <= i < |files| ==> Readable(files[i].content)
  }

  /** parse_enemy_data: the enemies of each file, file after file. */
  function EnemyData(files: seq<CharacterFile>): seq<Entity>
  {
    if files == [] then []
    else
      var last := files[|files| - 1];
      EnemyData(files[..|files| - 1]) + FileEnemies(last.content, last.stem)
  }

  function TotalBlocks(files: seq<CharacterFile>): nat
  {
    if files == [] then 0 else TotalBlocks(files[..|files| - 1]) + |CharacterBlocks(files[|files| - 1].content)|
  }

  /** Every character block of every file gives one enemy. */
  lemma {:induction false} EnemyDataCount(files: seq<CharacterFile>)
    ensures |EnemyData(files)| == TotalBlocks(files)
  {
    if files != [] {
      EnemyDataCount(files[..|files| - 1]);
    }
  }

  method ParseEnemyData(files: seq<CharacterFile>) returns (all: seq<Entity>)
    requires FilesReadable(files)
    ensures all == EnemyData(files)
  {
    all := [];
    var i := 0;
    while i < |files|
      invariant 0 <= i <= |files|
      invariant all == EnemyData(files[..i])
    {
      var enemies := ParseFile(files[i].content, files[i].stem);
      PrefixStep(files, i);
      all := all + enemies;
      i := i + 1;
    }
    WholePrefix(files);
  }

  // ---------------------------------------------------------------- reading an enemy's fields

  /** enemy.get("_items", {}) is a dict, so that .get can be called on it. */
  predicate ItemsOk(e: Entity)
  {
    "_items" !in e || e["_items"].Dict?
  }

  /** enemy.get("_items", {}).get(k, default) */
  function ItemsGet(e: Entity, k: string, default: Value): (r: Value)
    requires ItemsOk(e)
  {
    if "_items" in e && k in e["_items"].fields then e["_items"].fields[k] else default
  }

  function FileName(e: Entity): Value
  {
    Get(e, "_filename", Str("unknown"))
  }

  /** The fields both formats multiply: float() is applied to each. */
  predicate MotionReady(e: Entity)
  {
    && ItemsOk(e)
    && IsNumber(Get(e, "speed", Int(0)))
    && IsNumber(ItemsGet(e, "speedBoost", Float(1.0)))
    && IsNumber(Get(e, "jumpImpulse", Int(0)))
    && IsNumber(ItemsGet(e, "jumpImpulseBoost", Float(1.0)))
  }

  /** The speed with the item boost, before rounding. */
  function Speed(e: Entity): real
    requires MotionReady(e)
  {
    AsReal(Get(e, "speed", Int(0))) * AsReal(ItemsGet(e, "speedBoost", Float(1.0)))
  }

  /** The jump impulse with the item boost, before rounding. */
  function Jump(e: Entity): real
    requires MotionReady(e)
  {
    AsReal(Get(e, "jumpImpulse", Int(0))) * AsReal(ItemsGet(e, "jumpImpulseBoost", Float(1.0)))
  }

  // ---------------------------------------------------------------- round(x, 2) as text

  /** The hundredths of x that round(x, 2) keeps, halves to even. */
  function Cents(x: real): int
  {
    RoundHalfEven(x * 100.0)
  }

  /** repr of the float c/100: the whole part, '.', then the two decimals without a
      trailing zero (one digit at least). */
  function CentsText(c: nat): string
  {
    NatText(c / 100) + "." + CentsFraction(c % 100)
  }

  function CentsFraction(r: nat): (t: string)
    requires r < 100
    ensures 1 <= |t| <= 2 && AllDigits(t)
  {
    var tens := '0' + (r / 10) as char;
    if r % 10 == 0 then [tens] else [tens, '0' + (r % 10) as char]
  }

  /** f"{round(x, 2)}": a negative x keeps its sign, even when it rounds to zero. */
  function Round2Text(x: real): string
  {
    var k := Cents(x);
    if x < 0.0 then "-" + CentsText(-k) else CentsText(k)
  }

  /** The two decimals read back as the hundredths they stand for. */
  lemma CentsFractionValue(r: nat)
    requires r < 100
    ensures DigitsValue(CentsFraction(r)) as real / Pow10(|CentsFraction(r)|) as real == r as real / 100.0
  {
    var t := CentsFraction(r);
    assert DigitValue(t[0]) == r / 10;
    assert t[..1][..0] == [];
    assert DigitsValue(t[..1]) == r / 10;
    if r % 10 == 0 {
      assert t == t[..1];
      assert r == 10 * (r / 10);
    } else {
      assert DigitValue(t[1]) == r % 10;
      assert DigitsValue(t) == (r / 10) * 10 + r % 10;
    }
  }

  /** The text of c hundredths is a decimal literal worth c/100. */
  lemma CentsTextValue(c: nat)
    ensures IsDecimal(CentsText(c))
    ensures DecimalValue(CentsText(c)) == c as real / 100.0
  {
    var whole, frac := NatText(c / 100), CentsFraction(c % 100);
    var s := CentsText(c);
    assert '.' !in whole by {
      forall i | 0 <= i < |whole| ensures whole[i] != '.' { assert IsDigit(whole[i]); }
    }
    SplitOnceAt(whole, '.', frac);
    assert s == whole + ['.'] + frac;
    assert '.' in s by { assert s[|whole|] == '.'; }
    CentsFractionValue(c % 100);
    assert c == (c / 100) * 100 + c % 100;
  }

  /** The text of c hundredths is written in numerals. */
  lemma CentsTextNumerals(c: nat)
    ensures forall i :: 0 <= i < |CentsText(c)| ==> IsNumeral(CentsText(c)[i])
  {
    var whole, frac := NatText(c / 100), CentsFraction(c % 100);
    assert forall i :: 0 <= i < |whole| ==> IsDigit(whole[i]);
    assert forall i :: 0 <= i < |frac| ==> IsDigit(frac[i]);
  }

  /** float() reads c hundredths back from their text ... */
  lemma CentsTextReadsBack(c: nat, v: real)
    requires v == c as real / 100.0
    ensures ParseFloat(CentsText(c)) == Some(v)
  {
    CentsTextValue(c);
    CentsTextNumerals(c);
    ParseFloatDecimal(CentsText(c), v);
  }

  /** ... and with a minus sign in front, their negation. */
  lemma SignedCentsTextReadsBack(c: nat, w: real)
    requires w == -(c as real / 100.0)
    ensures ParseFloat("-" + CentsText(c)) == Some(w)
  {
    CentsTextValue(c);
    CentsTextNumerals(c);
    ParseFloatNegative(CentsText(c), w);
  }

  /** round(x, 2): the value of x rounded to hundredths, halves to even. */
  function Round2(x: real): real
  {
    Cents(x) as real / 100.0
  }

  /** The rendered text: the sign, then the text of the rounded magnitude in hundredths. */
  lemma Round2TextShape(x: real)
    ensures x < 0.0 ==> Cents(x) <= 0 && Round2Text(x) == "-" + CentsText(-Cents(x))
    ensures x >= 0.0 ==> Cents(x) >= 0 && Round2Text(x) == CentsText(Cents(x))
  {
  }

  /** float() of the rendered text gives back the rounded value round(x, 2). */
  lemma Round2TextReadsBack(x: real)
    ensures ParseFloat(Round2Text(x)) == Some(Round2(x))
  {
    if x < 0.0 {
      NegativeRound2TextReadsBack(x);
    } else {
      Round2TextShape(x);
      CentsTextReadsBack(Cents(x), Round2(x));
    }
  }

  lemma NegativeRound2TextReadsBack(x: real)
    requires x < 0.0
    ensures ParseFloat(Round2Text(x)) == Some(Round2(x))
  {
    var c := -Cents(x);
    var w := Round2(x);
    assert c >= 0 by { Round2TextShape(x); }
    SignedCentsTextReadsBack(c, w);
    assert Round2Text(x) == "-" + CentsText(c) by { Round2TextShape(x); }
  }

  /** The rendered value is written in numerals. */
  lemma Round2TextNumerals(x: real)
    ensures forall i :: 0 <= i < |Round2Text(x)| ==> IsNumeral(Round2Text(x)[i])
  {
    var k := Cents(x);
    Round2TextShape(x);
    CentsTextNumerals(if x < 0.0 then -k else k);
  }

  /** int() of a number. */
  function IntOf(v: Value): int
    requires IsNumber(v)
  {
    Trunc(AsReal(v))
  }

  // ---------------------------------------------------------------- format_developer

  /** The enemy format_developer can render without raising. */
  predicate DeveloperReady(e: Entity)
  {
    && FileName(e).Str?
    && MotionReady(e)
    && IsNumber(Get(e, "resistance", Int(0)))
    && IsNumber(ItemsGet(e, "damage", Int(0)))
    && IsNumber(Get(e, "passiveDamage", Int(0)))
    && IsNumber(ItemsGet(e, "armor", Int(0)))
  }

  /** The resource name of a file stem: lower case, spaces and hyphens made '_'. */
  function Base(e: Entity): string
    requires FileName(e).Str?
  {
    Replace(Replace(Lower(FileName(e).s), " ", "_"), "-", "_")
  }

  /** The id of the n-th enemy with a given base: the base itself the first time,
      base_n after that. */
  function IdFor(base: string, n: int): string
  {
    if n > 1 then base + "_" + IntText(n) else base
  }

  function DeveloperLine(e: Entity, id: string): string
    requires DeveloperReady(e)
  {
    "enemyList.add(new Enemy(str(context, R.string.enemy_" + id + "), "
      + IntText(IntOf(Get(e, "resistance", Int(0)))) + ", "
      + IntText(IntOf(ItemsGet(e, "damage", Int(0)))) + ", "
      + IntText(IntOf(Get(e, "passiveDamage", Int(0)))) + ", "
      + IntText(IntOf(ItemsGet(e, "armor", Int(0)))) + ", "
      + Round2Text(Speed(e)) + ", " + Round2Text(Jump(e)) + ", \""
      + Show(Get(e, "patrolBehaviour", Str(""))) + "\", \""
      + Show(Get(e, "attackBehaviour", Str(""))) + "\", R.drawable.enemy_" + id + "));"
  }

  function CountIn(counts: map<string, int>, base: string): int
  {
    if base in counts then counts[base] else 0
  }

  /** The counter with one more enemy of the given base counted. */
  function Bump(counts: map<string, int>, base: string): (r: map<string, int>)
    ensures base in r && r[base] == CountIn(counts, base) + 1
    ensures forall b :: b != base ==> CountIn(r, b) == CountIn(counts, b)
  {
    counts[base := CountIn(counts, base) + 1]
  }

  /** The name_counts dict format_developer updates: how many enemies of each base
      have been rendered so far. */
  class NameCounter {
    var counts: map<string, int>

    constructor ()
      ensures counts == map[]
    {
      counts := map[];
    }

    /** format_developer: counts the enemy's base and renders its line with the id
        that count gives. */
    method FormatDeveloper(enemy: Entity) returns (line: string)
      requires DeveloperReady(enemy)
      modifies this
      ensures counts == Bump(old(counts), Base(enemy))
      ensures line == DeveloperLine(enemy, IdFor(Base(enemy), counts[Base(enemy)]))
    {
      var base := Base(enemy);
      counts := Bump(counts, base);
      var id := IdFor(base, counts[base]);
      line := DeveloperLine(enemy, id);
    }
  }

  /** A base is a lower-case name without spaces or hyphens. */
  lemma BaseShape(e: Entity)
    requires FileName(e).Str?
    ensures ' ' !in Base(e) && '-' !in Base(e)
    ensures forall i :: 0 <= i < |Base(e)| ==> !IsUpperChar(Base(e)[i])
  {
    var low := Lower(FileName(e).s);
    var spaced := Replace(low, " ", "_");
    ReplaceCharRemoves(low, ' ', "_", ' ');
    ReplaceCharRemoves(spaced, '-', "_", '-');
    ReplaceCharRemoves(spaced, '-', "_", ' ');
    forall i | 0 <= i < |Base(e)| ensures !IsUpperChar(Base(e)[i]) {
      var c := Base(e)[i];
      ReplaceCharRemoves(spaced, '-', "_", c);
      ReplaceCharRemoves(low, ' ', "_", c);
    }
  }

  /** The ids of two different enemies of the same base differ. */
  lemma IdsDiffer(base: string, j: int, k: int)
    requires 1 <= j < k
    ensures IdFor(base, j) != IdFor(base, k)
  {
    var tk := NatText(k);
    assert tk == (base + "_" + tk)[|base| + 1..];
    if j > 1 {
      var tj := NatText(j);
      assert DigitsValue(tj) != DigitsValue(tk);
      assert tj == (base + "_" + tj)[|base| + 1..];
    }
  }

  // ---------------------------------------------------------------- a developer run

  predicate AllDeveloperReady(es: seq<Entity>)
  {
    forall i :: 0 <= i < |es| ==> DeveloperReady(es[i])
  }

  function Bases(es: seq<Entity>): (r: seq<string>)
    requires AllDeveloperReady(es)
    ensures |r| == |es|
    ensures forall i :: 0 <= i < |es| ==> r[i] == Base(es[i])
  {
    seq(|es|, i requires 0 <= i < |es| => Base(es[i]))
  }

  /** The number of the i-th enemy of a run whose enemies have the bases bs: how
      many enemies of its base come up to and including it. */
  function Number(bs: seq<string>, i: int): int
    requires 0 <= i < |bs|
  {
    multiset(bs[..i + 1])[bs[i]]
  }

  /** The id of the i-th enemy of a developer run. */
  function RunId(es: seq<Entity>, i: int): string
    requires AllDeveloperReady(es)
    requires 0 <= i < |es|
  {
    IdFor(Bases(es)[i], Number(Bases(es), i))
  }

  /** The lines of a developer run: each enemy rendered with its id. */
  function DeveloperRun(es: seq<Entity>): (r: seq<string>)
    requires AllDeveloperReady(es)
    ensures |r| == |es|
  {
    seq(|es|, i requires 0 <= i < |es| => DeveloperLine(es[i], RunId(es, i)))
  }

  /** Numbers start at 1 and grow strictly along the enemies of one base. */
  lemma NumbersIncrease(bs: seq<string>, i: int, j: int)
    requires 0 <= i < j < |bs|
    requires bs[i] == bs[j]
    ensures 1 <= Number(bs, i) < Number(bs, j)
  {
    var b := bs[i];
    var left, right := bs[..i + 1], bs[i + 1..j + 1];
    assert multiset(left)[b] >= 1 by { assert left[i] == b; }
    assert multiset(right)[b] >= 1 by { assert right[j - i - 1] == b; }
    assert multiset(bs[..j + 1])[b] == multiset(left)[b] + multiset(right)[b] by {
      assert bs[..j + 1] == left + right;
    }
  }

  /** Two enemies of the same base never get the same id in a run. */
  lemma RunIdsDistinct(es: seq<Entity>, i: int, j: int)
    requires AllDeveloperReady(es)
    requires 0 <= i < j < |es|
    requires Base(es[i]) == Base(es[j])
    ensures RunId(es, i) != RunId(es, j)
  {
    NumbersIncrease(Bases(es), i, j);
    IdsDiffer(Base(es[i]), Number(Bases(es), i), Number(Bases(es), j));
  }

  // ---------------------------------------------------------------- format_normal

  /** The enemy format_normal can render without raising. */
  predicate NormalReady(e: Entity)
  {
    && FileName(e).Str?
    && MotionReady(e)
    && IsNumber(ItemsGet(e, "damage", Int(0)))
    && IsNumber(ItemsGet(e, "armor", Int(0)))
  }

  /** The display name: '_' and '-' become spaces, then title case. */
  function DisplayName(stem: string): string
  {
    Title(Replace(Replace(stem, "_", " "), "-", " "))
  }

  /** The lines format_normal joins: six always, then damage on touch, item damage
      and item armor when they are non-zero. */
  function NormalLines(e: Entity): (r: seq<string>)
    requires NormalReady(e)
    ensures |r| >= 6
  {
    var damageOnTouch := Get(e, "passiveDamage", Int(0));
    NormalLayout(
      DisplayName(FileName(e).s), Round2Text(Jump(e)), Round2Text(Speed(e)),
      Show(Get(e, "resistance", Int(0))),
      Show(Get(e, "patrolBehaviour", Str(""))),
      Show(Get(e, "attackBehaviour", Str(""))),
      if Truthy(damageOnTouch) then Some(Show(damageOnTouch)) else None,
      IntOf(ItemsGet(e, "damage", Int(0))),
      IntOf(ItemsGet(e, "armor", Int(0))))
  }

  /** The labelled lines of the normal format, from the rendered fields. */
  function NormalLayout(name: string, jump: string, speed: string, resistance: string,
                        patrol: string, attack: string, touch: Option<string>,
                        damage: int, armor: int): (r: seq<string>)
    ensures |r| >= 6
  {
    [ "Name: " + name,
      "Jump Impulse: " + jump,
      "Speed: " + speed,
      "Health (Resistance): " + resistance,
      "Patrol Behaviour: " + patrol,
      "Attack Behaviour: " + attack ]
    + (if touch.Some? then ["Damage on Touch: " + touch.value] else [])
    + (if damage != 0 then ["Damage (from items): " + IntText(damage)] else [])
    + (if armor != 0 then ["Armor (from items): " + IntText(armor)] else [])
  }

  /** The layout puts no newline of its own into a line. */
  lemma LayoutHasNoNewline(name: string, jump: string, speed: string, resistance: string,
                           patrol: string, attack: string, touch: Option<string>,
                           damage: int, armor: int)
    requires '\n' !in name && '\n' !in jump && '\n' !in speed && '\n' !in resistance
    requires '\n' !in patrol && '\n' !in attack
    requires touch.Some? ==> '\n' !in touch.value
    ensures NoNewlines(NormalLayout(name, jump, speed, resistance, patrol, attack, touch, damage, armor))
  {
    var head := [ "Name: " + name,
      "Jump Impulse: " + jump,
      "Speed: " + speed,
      "Health (Resistance): " + resistance,
      "Patrol Behaviour: " + patrol,
      "Attack Behaviour: " + attack ];
    var touches := if touch.Some? then ["Damage on Touch: " + touch.value] else [];
    var damages := if damage != 0 then ["Damage (from items): " + IntText(damage)] else [];
    var armors := if armor != 0 then ["Armor (from items): " + IntText(armor)] else [];
    LayoutHeadHasNoNewline(name, jump, speed, resistance, patrol, attack);
    LayoutTotalsHaveNoNewline(damage, armor);
    assert NoNewlines(touches);
    NoNewlinesConcat(head, touches);
    NoNewlinesConcat(head + touches, damages + armors);
    assert head + touches + damages + armors == (head + touches) + (damages + armors);
  }

  lemma LayoutHeadHasNoNewline(name: string, jump: string, speed: string, resistance: string,
                               patrol: string, attack: string)
    requires '\n' !in name && '\n' !in jump && '\n' !in speed && '\n' !in resistance
    requires '\n' !in patrol && '\n' !in attack
    ensures NoNewlines([ "Name: " + name,
      "Jump Impulse: " + jump,
      "Speed: " + speed,
      "Health (Resistance): " + resistance,
      "Patrol Behaviour: " + patrol,
      "Attack Behaviour: " + attack ])
  {
    LabelledNoNewline("Name: ", name);
    LabelledNoNewline("Jump Impulse: ", jump);
    LabelledNoNewline("Speed: ", speed);
    LabelledNoNewline("Health (Resistance): ", resistance);
    LabelledNoNewline("Patrol Behaviour: ", patrol);
    LabelledNoNewline("Attack Behaviour: ", attack);
  }

  lemma LayoutTotalsHaveNoNewline(damage: int, armor: int)
    ensures NoNewlines((if damage != 0 then ["Damage (from items): " + IntText(damage)] else [])
                     + (if armor != 0 then ["Armor (from items): " + IntText(armor)] else []))
  {
    var damages := if damage != 0 then ["Damage (from items): " + IntText(damage)] else [];
    var armors := if armor != 0 then ["Armor (from items): " + IntText(armor)] else [];
    if damage != 0 {
      NumberLineHasNoNewline("Damage (from items): ", damage);
    }
    if armor != 0 {
      NumberLineHasNoNewline("Armor (from items): ", armor);
    }
    NoNewlinesConcat(damages, armors);
  }

  lemma NumberLineHasNoNewline(caption: string, n: int)
    requires '\n' !in caption
    ensures '\n' !in caption + IntText(n)
  {
    IntTextNumerals(n);
    NumeralsHaveNoNewline(IntText(n));
  }

  function FormatNormal(e: Entity): string
    requires NormalReady(e)
  {
    Join(NormalLines(e), "\n")
  }

  /** The display name has neither '_' nor '-'. */
  lemma DisplayNameShape(stem: string)
    ensures '_' !in DisplayName(stem) && '-' !in DisplayName(stem)
  {
    var once := Replace(stem, "_", " ");
    var twice := Replace(once, "-", " ");
    ReplaceCharRemoves(stem, '_', " ", '_');
    ReplaceCharRemoves(once, '-', " ", '-');
    ReplaceCharRemoves(once, '-', " ", '_');
    TitleKeeps(twice, '_');
    TitleKeeps(twice, '-');
  }

  /** A reader that splits the text at newlines gets the lines back, as long as
      the fields shown verbatim hold no newline. */
  lemma NormalTextSplitsBack(e: Entity)
    requires NormalReady(e)
    requires '\n' !in FileName(e).s
    requires '\n' !in Show(Get(e, "resistance", Int(0)))
    requires '\n' !in Show(Get(e, "patrolBehaviour", Str("")))
    requires '\n' !in Show(Get(e, "attackBehaviour", Str("")))
    requires '\n' !in Show(Get(e, "passiveDamage", Int(0)))
    ensures Split(FormatNormal(e), '\n') == NormalLines(e)
  {
    NormalLinesHaveNoNewline(e);
    JoinSplit(NormalLines(e), '\n');
  }

  lemma NormalLinesHaveNoNewline(e: Entity)
    requires NormalReady(e)
    requires '\n' !in FileName(e).s
    requires '\n' !in Show(Get(e, "resistance", Int(0)))
    requires '\n' !in Show(Get(e, "patrolBehaviour", Str("")))
    requires '\n' !in Show(Get(e, "attackBehaviour", Str("")))
    requires '\n' !in Show(Get(e, "passiveDamage", Int(0)))
    ensures NoNewlines(NormalLines(e))
  {
    var name := DisplayName(FileName(e).s);
    assert '\n' !in name by {
      var once := Replace(FileName(e).s, "_", " ");
      ReplaceCharRemoves(FileName(e).s, '_', " ", '\n');
      ReplaceCharRemoves(once, '-', " ", '\n');
      TitleKeeps(Replace(once, "-", " "), '\n');
    }
    var jump, speed := Round2Text(Jump(e)), Round2Text(Speed(e));
    assert '\n' !in jump by { Round2TextNumerals(Jump(e)); NumeralsHaveNoNewline(jump); }
    assert '\n' !in speed by { Round2TextNumerals(Speed(e)); NumeralsHaveNoNewline(speed); }
    var damageOnTouch := Get(e, "passiveDamage", Int(0));
    LayoutHasNoNewline(name, jump, speed,
      Show(Get(e, "resistance", Int(0))),
      Show(Get(e, "patrolBehaviour", Str(""))),
      Show(Get(e, "attackBehaviour", Str(""))),
      if Truthy(damageOnTouch) then Some(Show(damageOnTouch)) else None,
      IntOf(ItemsGet(e, "damage", Int(0))),
      IntOf(ItemsGet(e, "armor", Int(0))));
  }

  lemma NumeralsHaveNoNewline(t: string)
    requires forall k :: 0 <= k < |t| ==> IsNumeral(t[k])
    ensures '\n' !in t
  {
  }

  lemma LabelledNoNewline(caption: string, s: string)
    requires '\n' !in caption && '\n' !in s
    ensures '\n' !in caption + s
  {
  }

  predicate NoNewlines(ls: seq<string>)
  {
    forall i :: 0 <= i < |ls| ==> '\n' !in ls[i]
  }

  lemma NoNewlinesConcat(a: seq<string>, b: seq<string>)
    requires NoNewlines(a) && NoNewlines(b)
    ensures NoNewlines(a + b)
  {
    forall i | 0 <= i < |a + b| ensures '\n' !in (a + b)[i] {
      if i >= |a| { assert (a + b)[i] == b[i - |a|]; }
    }
  }

  // ---------------------------------------------------------------- parse_enemy_stats

  /** The sort key: enemy.get("resistance", 0). */
  function ResistanceKey(e: Entity): Key
  {
    KeyOrZero(Get(e, "resistance", Int(0)))
  }

  function Resistances(es: seq<Entity>): (r: seq<Value>)
    ensures |r| == |es|
  {
    if es == [] then [] else Resistances(es[..|es| - 1]) + [Get(es[|es| - 1], "resistance", Int(0))]
  }

  predicate AllNormalReady(es: seq<Entity>)
  {
    forall i :: 0 <= i < |es| ==> NormalReady(es[i])
  }

  function NormalRun(es: seq<Entity>): (r: seq<string>)
    requires AllNormalReady(es)
    ensures |r| == |es|
  {
    if es == [] then [] else NormalRun(es[..|es| - 1]) + [FormatNormal(es[|es| - 1])]
  }

  predicate ModeReady(es: seq<Entity>, mode: string)
  {
    if mode == "developer" then AllDeveloperReady(es) else AllNormalReady(es)
  }

  /** The lines parse_enemy_stats returns for a list of enemies: sorted by
      resistance, then rendered in the mode, one line per enemy. */
  function StatsLines(es: seq<Entity>, mode: string): seq<string>
    requires ModeReady(es, mode)
  {
    var sorted := SortBy(es, ResistanceKey);
    SortedReady(es, mode);
    if mode == "developer" then DeveloperRun(sorted) else NormalRun(sorted)
  }

  /** Sorting keeps the enemies ready for the mode. */
  lemma SortedReady(es: seq<Entity>, mode: string)
    requires ModeReady(es, mode)
    ensures ModeReady(SortBy(es, ResistanceKey), mode)
  {
    var sorted := SortBy(es, ResistanceKey);
    forall i | 0 <= i < |sorted|
      ensures mode == "developer" ==> DeveloperReady(sorted[i])
      ensures mode != "developer" ==> NormalReady(sorted[i])
    {
      SortByElements(es, ResistanceKey, i);
    }
  }

  /** A counter that holds how many of the first i bases it has seen, bumped for
      the next base, holds how many of the first i + 1 it has seen, and the next
      enemy's number is the bumped count. */
  lemma CountStep(bs: seq<string>, i: int, counts: map<string, int>)
    requires 0 <= i < |bs|
    requires forall c :: CountIn(counts, c) == multiset(bs[..i])[c]
    ensures forall c :: CountIn(Bump(counts, bs[i]), c) == multiset(bs[..i + 1])[c]
    ensures Number(bs, i) == CountIn(counts, bs[i]) + 1
  {
    PrefixStep(bs, i);
  }

  /** One step of the developer loop renders the next enemy with its number. */
  lemma LineStep(sorted: seq<Entity>, i: int, lines: seq<string>, n: int)
    requires AllDeveloperReady(sorted)
    requires 0 <= i < |sorted|
    requires lines == DeveloperRun(sorted)[..i]
    requires n == Number(Bases(sorted), i)
    ensures lines + [DeveloperLine(sorted[i], IdFor(Bases(sorted)[i], n))] == DeveloperRun(sorted)[..i + 1]
  {
    assert DeveloperRun(sorted)[i] == DeveloperLine(sorted[i], IdFor(Bases(sorted)[i], n));
    PrefixStep(DeveloperRun(sorted), i);
  }

  /** One pass of the developer loop: the i-th enemy counted and rendered. */
  method DeveloperNext(counter: NameCounter, sorted: seq<Entity>, i: int, lines: seq<string>)
    returns (lines': seq<string>)
    requires AllDeveloperReady(sorted) && 0 <= i < |sorted|
    requires forall b :: CountIn(counter.counts, b) == multiset(Bases(sorted)[..i])[b]
    requires lines == DeveloperRun(sorted)[..i]
    modifies counter
    ensures forall b :: CountIn(counter.counts, b) == multiset(Bases(sorted)[..i + 1])[b]
    ensures lines' == DeveloperRun(sorted)[..i + 1]
  {
    CountStep(Bases(sorted), i, counter.counts);
    LineStep(sorted, i, lines, CountIn(counter.counts, Bases(sorted)[i]) + 1);
    var line := counter.FormatDeveloper(sorted[i]);
    lines' := lines + [line];
  }

  /** The developer loop over the sorted enemies. */
  method DeveloperLines(sorted: seq<Entity>) returns (lines: seq<string>)
    requires AllDeveloperReady(sorted)
    ensures lines == DeveloperRun(sorted)
  {
    var counter := new NameCounter();
    ghost var bases := Bases(sorted);
    ghost var run := DeveloperRun(sorted);
    lines := [];
    var i := 0;
    while i < |sorted|
      invariant 0 <= i <= |sorted|
      invariant forall b :: CountIn(counter.counts, b) == multiset(bases[..i])[b]
      invariant lines == run[..i]
    {
      lines := DeveloperNext(counter, sorted, i, lines);
      i := i + 1;
    }
    WholePrefix(run);
  }

  /** The normal loop over the sorted enemies. */
  method NormalLinesOf(sorted: seq<Entity>) returns (lines: seq<string>)
    requires AllNormalReady(sorted)
    ensures lines == NormalRun(sorted)
  {
    lines := [];
    var i := 0;
    while i < |sorted|
      invariant 0 <= i <= |sorted|
      invariant AllNormalReady(sorted[..i])
      invariant lines == NormalRun(sorted[..i])
    {
      PrefixStep(sorted, i);
      lines := lines + [FormatNormal(sorted[i])];
      i := i + 1;
    }
    WholePrefix(sorted);
  }

  /** parse_enemy_stats on the enemies parse_enemy_data found: sorted() raises
      unless the resistances are mutually comparable. */
  method ParseEnemyStats(enemies: seq<Entity>, mode: string) returns (lines: seq<string>)
    requires Orderable(Resistances(enemies))
    requires ModeReady(enemies, mode)
    ensures lines == StatsLines(enemies, mode)
    ensures |lines| == |enemies|
  {
    var sorted := SortBy(enemies, ResistanceKey);
    SortedReady(enemies, mode);
    if mode == "developer" {
      lines := DeveloperLines(sorted);
    } else {
      lines := NormalLinesOf(sorted);
    }
  }
}
