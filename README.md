# Item Parser for Magic Rampage, modelled in Dafny

The scripts read the game's data in three ways:
- the `.enml` item files and the character-class file, whose line state machines find `item … { … }` and `helmet|hood|hat … { … }` blocks and turn their `key = value;` lines into dicts;
- the `.character` enemy files, whose non-greedy block patterns yield enemies carrying the totals of their equipped items;
- the online item feed, which is indexed by name and merged into the local lists.

They also filter placeholder items out of the local lists, and generate Java constructor lines for armours, rings, weapons, classes and enemies. A separate script, `language_getter.py`, matches the strings of an Android `strings.xml` against translated `.strings` packs. It goes through four lookup fallbacks, re-injects numbers and tags, and escapes its output.

Each source file is one Dafny module. `Text` holds Python's string methods on ASCII (with `str.splitlines` breaking at every line boundary Python knows), and `Values` holds Python values, truthiness, `str()` of scalars, `float()` and the list-building folds. `Sorting` is Python's stable `sorted()`. Loops are methods whose loop invariants tie the loop state to a specification function over a prefix of the input. In-place updates of `local_data` and of the enemy name counter are methods of classes (`Values.LocalData`, `EnemyParser.NameCounter`).

A Python exception the scripts do not catch becomes a `requires`, naming the inputs on which the code does not raise. An exception they do catch becomes a branch.

## Model

| member | source | states |
|---|---|---|
| FileParser.DigitTest | file_parser.py:26 | `value.replace(".", "", 1).isdigit()` holds exactly for ASCII digits with at most one '.' and at least one digit (Python's `isdigit` also takes other Unicode digits; see Left out) |
| FileParser.CoerceBool | file_parser.py:24-25 | only "true"/"false" in any letter case become bools, with the value "true" gives |
| FileParser.CoerceNumber | file_parser.py:24-27 | int exactly for ASCII digits; float exactly for an ASCII decimal with a '.'; every other non-bool value stays the same string (a leading '-', an empty value, a lone '.'); non-ASCII digits are left out |
| FileParser.CoerceReadsIntBack | file_parser.py:26-27 | a whole number written by `str()` is read back as that int |
| FileParser.CoerceReadsBoolBack | file_parser.py:24-25 | a bool written by `str()` is read back as that bool |
| FileParser.EnmlEntryShape | file_parser.py:13-18 | after the comment is cut, a line without '=' adds nothing; a line with one assigns a key that holds no '=' (split at the first '=') |
| FileParser.EnmlEntryReadsLineBack | file_parser.py:12-27 | a written `k = v;` line is read back as key k and the coerced v, even when v holds '=' |
| Values.AssignedLastWriteWins | file_parser.py:28 | in a dict filled by `d[k] = v` line by line, a key holds the value of its last assignment |
| FileParser.ParseEnmlBlock | file_parser.py:8-29 | the loop fills the dict the per-line rule describes, duplicate keys overwriting |
| FileParser.ConsumeLine | file_parser.py:51-77 | one loop pass moves the state as the line rule says and appends the closed block's dict only when it is non-empty |
| FileParser.ParseFileLines | file_parser.py:46-77 | the line loop yields the non-empty dicts of the closed blocks, in file order |
| FileParser.CloseBlock | file_parser.py:67-75 | closing a block records its buffered lines joined by newlines, and keeps the dict parsed from them only when it is non-empty |
| FileParser.BlockReadsBack | file_parser.py:46-77 | a file of an `item` opener line, a `{` line, stripped body lines without braces or an `item` prefix, and a `}` line yields exactly one dict: the one `parse_enml_block` gives for the body |
| Text.SplitLinesJoin | file_parser.py:11 | `splitlines()` gives back the lines joined by newlines when no line holds a line break and the last one is not empty |
| FileParser.ItemLineIsMarker | file_parser.py:53-55 | a line whose lower-cased stripped text starts with `item` only sets the opener flag, even inside a block |
| FileParser.BlockOpens | file_parser.py:57-62 | a block opens only on a `{` line seen while an opener is pending, with the text after the first `{` as content and depth 1 |
| FileParser.StepValid | file_parser.py:51-77 | each line keeps the invariant: a block is open exactly at a positive depth, and nothing is buffered outside a block |
| FileParser.ScanValid | file_parser.py:51-77 | the invariant holds after any sequence of lines |
| FileParser.DepthByPresence | file_parser.py:64-77 | inside a block the depth moves +1 for a line with `{` and -1 for a line with `}`, not by the number of braces; at depth 0 the block closes without that line's text |
| FileParser.NoCloseNoOutput | file_parser.py:64-77 | trailing lines without `}` emit nothing, so an unterminated block is dropped |
| FileParser.ScanOutputBound | file_parser.py:67-74 | a file yields at most one dict per `}` line |
| FileParser.ParsedDataKeys | file_parser.py:33 | every mapped type has a list in the result, whatever the files hold |
| FileParser.ParseFiles | file_parser.py:31-79 | each type's list holds the blocks of the files mapped to it, in listing order |
| ClassParser.ClassEntryIsUncoerced | class_parser.py:11-21 | the class reader accepts the same lines and keys as the .enml reader, and keeps as a string the value the .enml reader coerces |
| ClassParser.ClassEntryReadsLineBack | class_parser.py:11-21 | a written `k = v;` line is read back as exactly k and v |
| ClassParser.ParseClassBlock | class_parser.py:9-22 | the loop fills the dict the per-line rule describes, last write winning |
| ClassParser.ConsumeLine | class_parser.py:36-64 | one loop pass moves the state as the line rule says and appends the block it closes |
| ClassParser.ParseClassLines | class_parser.py:24-66 | the line loop returns the closed blocks, each with its identifier, in file order |
| ClassParser.SkippedLineIgnored | class_parser.py:39-40 | blank and `//` lines change nothing in any state |
| ClassParser.OpenerIsNotContent | class_parser.py:42-47 | a `helmet`/`hood`/`hat` line only arms the reader and becomes the identifier; it never becomes content, even inside a block |
| ClassParser.ClosesAtFirstBrace | class_parser.py:55-64 | inside a block the first `}` line closes it with no nesting count and drops its text; any other line is content |
| ClassParser.StepValid | class_parser.py:36-64 | each line keeps the invariant: the identifier is an opener line while a block is pending or open, and nothing is buffered outside a block |
| ClassParser.ScanValid | class_parser.py:36-64 | the invariant holds after any sequence of lines |
| ClassParser.EveryBlockIdentified | class_parser.py:58-61 | every returned block, even an empty one, carries `identifier`, and it is an opener line |
| ClassParser.ClassBlocksBound | class_parser.py:55-63 | a file yields at most one block per `}` line |
| ClassParser.ComputeParameters | class_parser.py:68-91 | tuple positions 1, 2, 7 and 8 are always 0 |
| ClassParser.CalcMissing | class_parser.py:76 | a missing boost reads as "1" and contributes 0 |
| ClassParser.CalcUnparsable | class_parser.py:75-79 | a boost that `float()` rejects contributes 0 |
| ClassParser.CalcWhole | class_parser.py:74-79 | a whole-number boost n contributes (n - 1) * 100 |
| ClassParser.BlockCode | class_parser.py:96-109 | one loop pass adds nothing for a block without a class, and its line otherwise |
| ClassParser.GenerateClassCode | class_parser.py:93-110 | the loop yields one line per block with a non-empty class, in block order |
| ClassParser.ClassCodeAppend | class_parser.py:96-109 | the generator works block by block: two runs of blocks give their lines one after the other |
| ClassParser.ClassCodeOne | class_parser.py:97-109 | a block without a trimmed, lower-cased class is skipped; one with a class gives exactly its line |
| ClassParser.EnumNameShape | class_parser.py:102 | the enum constant holds no '-' and no lower-case letter |
| ClassParser.EnumMatchesDrawable | class_parser.py:102-103 | the drawable is `R.drawable.class_` plus the lower-cased enum constant, so both spell the same class |
| EnemyParser.Numeric | enemy_parser.py:17-20 | a value becomes the float `float()` reads from it when it is an ASCII decimal literal with optional sign and blanks, and otherwise stays its text (every text on which `float()` raises does; see Left out for texts Python reads and the model does not) |
| EnemyParser.CharacterEntryReadsLineBack | enemy_parser.py:11-21 | a written `k = v;` line is read back as key k with v as a float when `float()` accepts it, and as text otherwise |
| EnemyParser.CharacterEntryReadsQuotedBack | enemy_parser.py:16 | a quoted value `k = "v";` is read back without its quotes |
| EnemyParser.ParseCharacterBlock | enemy_parser.py:9-22 | the loop fills the dict the per-line rule describes, last write winning |
| EnemyParser.MatchAt | enemy_parser.py:28-29 | a match's body holds no `}`: the lazy pattern stops at the first `}` |
| EnemyParser.FindBlocks | enemy_parser.py:28-29 | no found body holds a `}` |
| EnemyParser.MatchWritten | enemy_parser.py:28-29 | a written `character{…}` or `equippedItemN{…}` block is matched with its own body |
| EnemyParser.FindWrittenBlocks | enemy_parser.py:28-29 | blocks written one after another are all found back, in order |
| EnemyParser.NoBraceNoBlocks | enemy_parser.py:28-29 | text without `}` has no blocks |
| EnemyParser.ItemTotalsAppend | enemy_parser.py:33-42 | the totals of two runs of item blocks combine: damage and armor add, boosts multiply |
| EnemyParser.ItemTotalsOrderFree | enemy_parser.py:34-42 | the order of the item blocks does not change the totals |
| EnemyParser.ItemWithoutStats | enemy_parser.py:36-38 | an item naming none of the four stats leaves the totals unchanged |
| EnemyParser.AddItem | enemy_parser.py:36-42 | one item's pass adds falsy-free damage and armor and multiplies the boosts, skipping falsy values |
| EnemyParser.AggregateItemStats | enemy_parser.py:33-42 | the loops start at 0, 0, 1.0, 1.0 and reach the totals over all parsed item blocks |
| EnemyParser.EnemiesAt | enemy_parser.py:31-45 | the i-th enemy is the i-th character block's fields plus the file's totals and stem |
| EnemyParser.FileEnemyFields | enemy_parser.py:31-45 | every enemy of a file has `_filename` = the stem, the same `_items`, and keeps every other field of its block |
| EnemyParser.BuildEnemy | enemy_parser.py:32-45 | the loop body builds one enemy from its block, the file's item totals and the stem |
| EnemyParser.ParseFile | enemy_parser.py:24-46 | one enemy per character block of the content, in order; the item blocks need addable values only when there is a character block to sum them into |
| EnemyParser.EnemyDataCount | enemy_parser.py:48-53 | the number of enemies is the number of character blocks of all files |
| EnemyParser.ParseEnemyData | enemy_parser.py:48-53 | the enemies of each file, file after file |
| EnemyParser.Round2TextShape | enemy_parser.py:65-66 | `round(x, 2)` is written as its sign and its rounded hundredths |
| EnemyParser.Round2TextReadsBack | enemy_parser.py:65-66 | `float()` of the rendered value gives back `round(x, 2)` |
| EnemyParser.BaseShape | enemy_parser.py:56 | the id base holds no space, no '-' and no capital |
| EnemyParser.Bump | enemy_parser.py:57 | the counter of the enemy's base goes up by one and no other counter changes |
| EnemyParser.NameCounter.constructor | enemy_parser.py:119 | a run starts with an empty counter |
| EnemyParser.NameCounter.FormatDeveloper | enemy_parser.py:55-74 | the call bumps the base's count to k and renders the line with id base (k = 1) or base_k |
| EnemyParser.IdsDiffer | enemy_parser.py:58-59 | the ids of the j-th and k-th enemy of one base differ |
| EnemyParser.NumbersIncrease | enemy_parser.py:57-59 | along one base the numbers start at 1 and grow strictly |
| EnemyParser.RunIdsDistinct | enemy_parser.py:119-122 | two enemies of the same base never get the same id in a run |
| EnemyParser.CountStep | enemy_parser.py:57 | a counter holding the base counts of the first i enemies, bumped, holds those of the first i + 1, and gives the next enemy its number |
| EnemyParser.DeveloperNext | enemy_parser.py:120-122 | one developer pass counts and renders the next enemy |
| EnemyParser.DeveloperLines | enemy_parser.py:119-122 | the developer loop renders each enemy with the id its running count gives |
| EnemyParser.NormalLines | enemy_parser.py:88-101 | at least the six fixed lines come first |
| EnemyParser.DisplayNameShape | enemy_parser.py:78 | the display name holds neither '_' nor '-' |
| EnemyParser.NormalTextSplitsBack | enemy_parser.py:88-103 | splitting the joined text at newlines gives the lines back: six fixed, then the non-zero touch, item-damage and item-armor lines |
| EnemyParser.NormalLinesOf | enemy_parser.py:120-124 | the normal loop renders each enemy once, in order |
| EnemyParser.ParseEnemyStats | enemy_parser.py:115-125 | the enemies are sorted stably by resistance (default 0) and rendered one line each |
| Sorting.SortBy | weapon_parser.py:8 | `sorted(items, key=...)` returns as many elements as it is given; SortBySpec states the order |
| Sorting.SortBySpec | enemy_parser.py:117 | `sorted()` with a key is ascending, a permutation and stable |
| FilterUtil.Keeps | filter_util.py:6-30 | the loop body keeps an item exactly when it passes the name, secondary-type and sprite checks |
| FilterUtil.IsDummySprite | filter_util.py:17-29 | the sprite rule excludes the placeholder sprites of armour, the six weapon types and rings, and nothing for other types |
| FilterUtil.FilterItems | filter_util.py:4-31 | the inner loop keeps exactly the passing items, in order |
| FilterUtil.FilterParsedData | filter_util.py:2-32 | every list is replaced in place by its filtered list, the type keys stay, and the same object is returned |
| FilterUtil.KeptExactly | filter_util.py:5-30 | kept items pass, no passing item is lost, the output is a subsequence of the input, and filtering twice is filtering once |
| FilterUtil.BItemsDropped | filter_util.py:6-10 | a stripped name ending with " B" is dropped whatever the type |
| FilterUtil.SecondaryDropped | filter_util.py:12-15 | a trimmed, lower-cased secondary type among essence, rune, key and arcane-rune is dropped |
| FilterUtil.NoSpriteRule | filter_util.py:17-30 | a type without sprite rules keeps every item whose name and secondary type pass |
| OnlineData.IndexOnlineData | online_data.py:16-23 | the loop builds the index of the feed by trimmed, lower-cased name |
| OnlineData.IndexKeys | online_data.py:19-21 | a key is indexed exactly when it is the non-empty key of some item, and it holds an item with that key |
| OnlineData.IndexLastWins | online_data.py:21 | when names collide, the later item wins |
| OnlineData.MergeItems | online_data.py:28-45 | every item of one list is merged where it stands |
| OnlineData.MergeOnlineFields | online_data.py:25-46 | every item of every list is merged in place; type keys and list lengths stay |
| OnlineData.MergeItemWrites | online_data.py:29-43 | the merge writes at most the type's field (maxLevelArmor or maxLevelDamage) with the feed's value, only on a name match where the feed has the field; nothing is removed and nothing else changes |
| OnlineData.MergeItemIdempotent | online_data.py:29-43 | merging a merged item again changes nothing |
| OnlineData.TargetFor | online_data.py:60-82 | the chosen bucket is always one of the eight |
| OnlineData.ChooseTarget | online_data.py:62-82 | the branch chain picks armour first, then ring, then weapons by secondary type (shuriken to dagger, unknown to sword), else ring |
| OnlineData.BucketOf | online_data.py:60-82 | an item's bucket comes from its trimmed, lower-cased type fields and is one of the eight |
| OnlineData.EmptyBuckets | online_data.py:49-58 | exactly the eight buckets, all empty |
| OnlineData.ConvertNext | online_data.py:59-83 | one pass appends the item to the end of its bucket only |
| OnlineData.ConvertOnlineToLocal | online_data.py:48-86 | each of exactly eight buckets holds the feed items that go to it, in feed order |
| OnlineData.ConvertedTotal | online_data.py:59-83 | every feed item lands in exactly one bucket, so the bucket sizes add up to the feed's length |
| LanguageKeys.CollapseSeparators | language_getter.py:24 | the result is empty exactly when the input is, and begins with the input's first character or the '_' of a run |
| LanguageKeys.CollapseResult | language_getter.py:24 | the result has no '-' and no two '_' in a row |
| LanguageKeys.CollapseFixpoint | language_getter.py:24 | a text is unchanged exactly when it has no '-' and no doubled '_' |
| LanguageKeys.NormKeyTrimmed | language_getter.py:21-24 | a normalised key neither starts nor ends with whitespace |
| LanguageKeys.NormKeyLowerCase | language_getter.py:23 | a normalised key has no capital |
| LanguageKeys.NormKeyCollapsed | language_getter.py:24 | a normalised key has no '-' and no doubled '_' |
| LanguageKeys.NormKeyIdempotent | language_getter.py:14-25 | `norm_key` is idempotent |
| LanguageKeys.SplitTrailingDigits | language_getter.py:33-36 | base + digits is the key, the digits are its whole trailing digit run, and without one (or with a line break in the base) the key comes back whole with no digits |
| LanguageKeys.KeyBaseAndNumExample | language_getter.py:30 | `mage19` splits into `mage` and `19` |
| LanguageKeys.Template | language_getter.py:57-58 | the template holds no digit and no '.' |
| LanguageKeys.TemplatePlain | language_getter.py:57-58 | a text without numerals and '<' is its own template |
| LanguageKeys.NumberIsPlaceholder | language_getter.py:47-48 | a maximal run of digits and dots becomes one `<ph>` |
| LanguageKeys.TagIsReplaced | language_getter.py:49-54 | a tag becomes `<ph>` when its content starts with `number` or is `new-game-plus`, and disappears otherwise |
| LanguageKeys.ParseLineKey | language_getter.py:63 | the key never holds '=': the split is at the first one |
| LanguageKeys.ParseLineRoundTrip | language_getter.py:60-66 | a key and value that need no trimming come back from their own `k=v` line |
| LanguageDb.KeyLocationOf | language_getter.py:92-94 | the stored key is a normalised key |
| LanguageDb.CreateKeyLocationsMap | language_getter.py:84-96 | the loop builds the map of normalised English key to (key, file), last line winning |
| LanguageDb.CreateEnglishTextDb | language_getter.py:70-82 | the loop builds the map of English template to (key, file), last line winning |
| LanguageDb.KeyLocationsNormalised | language_getter.py:94 | looking a stored key up again with `norm_key` finds the same slot |
| LanguageDb.LineEntry | language_getter.py:114-129 | a stored line belongs to a target language other than en, and carries its key's split into base and number |
| LanguageDb.EntriesTranslated | language_getter.py:116-117 | only target languages other than en contribute |
| LanguageDb.DbStep | language_getter.py:126-132 | one line overwrites the per-file map, sets the index only if the key is new, and adds to the families |
| LanguageDb.AddFamilyMember | language_getter.py:129-132 | the loop body's family update is the one the database function describes |
| LanguageDb.ReadLine | language_getter.py:113-125 | the language, parse and key checks of one line |
| LanguageDb.CreateTranslationsDb | language_getter.py:98-133 | one pass over the lines builds the three databases |
| LanguageDb.FileDbLastWins | language_getter.py:126 | the per-file map holds the value of the last line with that language, file and key |
| Values.FirstAssignedFirstWins | language_getter.py:128 | with `if k not in d: d[k] = v`, a key holds the value of its first assignment |
| LanguageDb.KeyIndexFirstWins | language_getter.py:128 | the index holds the value and file of the first line with that language and key, whatever file it is in |
| LanguageDb.FamiliesWellFormed | language_getter.py:129-132 | a family lists each number once, and only digit strings |
| LanguageDb.FamiliesFirstWins | language_getter.py:130-132 | the member for a number is the first line's with that language, base and number |
| LanguageDb.FamilyKeeps | language_getter.py:131-132 | adding a line never drops a family member |
| LanguageDb.FamilyNeedsLine | language_getter.py:131-132 | a number is in a family only if some line has that language, base and number |
| LanguageMatch.MakeXmlString | language_getter.py:147-153 | the entry keeps its name, and each inject is a number run or the preserved tag (the intended scan; see Findings) |
| LanguageMatch.LoadXmlData | language_getter.py:146-153 | the loop over the `<string>` elements builds the xml_data dict |
| LanguageMatch.XmlDataKeys | language_getter.py:146-153 | xml_data's keys are non-empty and distinct, in the order of their first occurrence; unnamed elements are skipped |
| LanguageMatch.XmlDataLastWins | language_getter.py:146-153 | a name has an entry exactly when some element carries it, and the entry is built from the last such element's text |
| LanguageMatch.InjectsAreInjectable | language_getter.py:152 | what the scan captures is a number run or `<new-game-plus>` |
| LanguageMatch.InjectsAsWrittenBlanksNumbers | language_getter.py:152 | the scan as written equals the intended one with every number replaced by "" |
| LanguageMatch.InjectsAsWrittenLosesNumber | language_getter.py:152 | on "Deals 10 damage" the scan as written captures "" where "10" is meant |
| LanguageMatch.InjectsOfNumbers | language_getter.py:152 | the intended scan finds space-separated numbers back whole and in order |
| LanguageMatch.ReinjectPlainPrefix | language_getter.py:243-248 | text before the first '<' is copied unchanged |
| LanguageMatch.ReinjectNothing | language_getter.py:243-248 | with no injects left the template is unchanged, its tags kept |
| LanguageMatch.ReinjectTag | language_getter.py:243-248 | a leading tag takes the next inject, and the rest takes the remaining ones |
| LanguageMatch.DropPlainPrefix | language_getter.py:251-261 | text before the first '<' is kept |
| LanguageMatch.DropTagAtStart | language_getter.py:251-261 | a tag stays exactly when its content is `new-game-plus` |
| LanguageMatch.DropKeepsPreserved | language_getter.py:254-255 | `<new-game-plus>` survives the cleanup |
| LanguageMatch.EscapeIsCharwise | language_getter.py:267-269 | escaping `&` first, then `'`, then `%` is the character-wise escape: nothing is escaped twice |
| LanguageMatch.EscapeUnmatchedIsCharwise | language_getter.py:283-287 | the four replaces of the unmatched file are a character-wise escape |
| LanguageMatch.EscapeRoundTrip | language_getter.py:267-269 | reading a translation line's escapes back gives the text |
| LanguageMatch.EscapeUnmatchedRoundTrip | language_getter.py:283-287 | the unmatched escape reads back to the text and leaves no '<' or '>' |
| LanguageMatch.Anchor | language_getter.py:181-189 | the English anchor comes by normalised name first, and is absent exactly when neither name nor template is known |
| LanguageMatch.Candidates | language_getter.py:192-196 | the string's own normalised name is the first candidate |
| LanguageMatch.Indexed | language_getter.py:207 | the index answers exactly for the (language, key) pairs it holds |
| LanguageMatch.FamilyGet | language_getter.py:228-230 | the value returned belongs to a family member with that number |
| LanguageMatch.FindTranslation | language_getter.py:201-235 | the candidate loop and the three fallbacks give the template the lookup cascade defines |
| LanguageMatch.FirstIndexedFinds | language_getter.py:206-209 | step A finds something exactly when the index holds a candidate, and then takes the first candidate it holds |
| LanguageMatch.LookupPrefersName | language_getter.py:205-209 | when the index holds the string's own name for the language, its value is the template |
| LanguageMatch.StepCIsSubsumed | language_getter.py:219-223 | step C can never answer: its key was already a candidate of step A |
| LanguageMatch.LookupNoneIff | language_getter.py:201-238 | no template exactly when no candidate is indexed, the anchored file has no entry, and the base has no family |
| LanguageMatch.FamilyPickSmallest | language_getter.py:231-235 | without the exact number, step D takes the member with the smallest number (not the highest the comment mentions) |
| LanguageMatch.RenderPlain | language_getter.py:243-270 | a template without tags is only cleaned and escaped, and its escape reads back |
| LanguageMatch.FoundAnyIff | language_getter.py:236-240 | a string is found exactly when some target language has a template for it |
| LanguageMatch.MatchLanguage | language_getter.py:202-274 | one language's turn writes the string's line exactly when the lookup succeeds |
| LanguageMatch.MatchOne | language_getter.py:201-277 | each language's file gets the string's line, and found says whether any language translated it |
| LanguageMatch.ProcessedStep | language_getter.py:276-277 | a string's name is added to processed_strings exactly when it was found |
| LanguageMatch.MatchNext | language_getter.py:177-277 | one pass extends every language file by the next string's line |
| LanguageMatch.MatchStrings | language_getter.py:175-277 | every language file holds the lines of the strings it translates, in xml order, and processed holds the names of the found strings |
| LanguageMatch.XmlDataUnmatched | language_getter.py:280-284 | on the xml_data the loop builds, the unmatched file holds exactly the entries no language translates |
| LanguageMatch.WriteUnmatched | language_getter.py:280-290 | the unmatched loop writes one escaped line per unprocessed string, in name order |
| LanguageMatch.ProcessedNameOf | language_getter.py:276-280 | with distinct names, a name is processed exactly when its string is found |
| LanguageMatch.UnmatchedExactly | language_getter.py:280-281 | the unmatched file lists exactly the strings no language translates, in ascending name order |
| ArmorRingParser.ProcessBoostPercent | armor_ring_parser.py:1-2 | a multiplier 1 + p/100 gives back the percentage p, except the multiplier 0, which counts as no boost |
| ArmorRingParser.SortByMaxArmor | armor_ring_parser.py:5-10 | the sort by `armor` (rings) or `maxLevelArmor`, falling back to `armor` then 0, is ascending, a permutation and stable |
| ArmorRingParser.PriceOf | armor_ring_parser.py:25-26 | a missing or null price reads as 0; any other is kept |
| ArmorRingParser.PriceValuesInOrder | armor_ring_parser.py:13-27 | exactly six non-null values, in the fixed key order |
| ArmorRingParser.PriceParamsReadBack | armor_ring_parser.py:30-33 | the suffix is ", ", the six prices joined by ", ", then "));", and splitting it at ',' gives back the six price texts |
| ArmorRingParser.MangleClean | armor_ring_parser.py:45-48 | a mangled name has no blank, apostrophe, '+', '-' or capital |
| ArmorRingParser.MangleOfMangled | armor_ring_parser.py:45-48 | a name already mangled is left as it is |
| ArmorRingParser.MangleIdempotent | armor_ring_parser.py:45-48 | mangling twice is mangling once |
| ArmorRingParser.DefaultArmorNameMangled | armor_ring_parser.py:45 | `test_armor` survives the mangling |
| ArmorRingParser.DefaultRingNameMangled | armor_ring_parser.py:88 | `test_ring` survives the mangling |
| ArmorRingParser.ItemName | armor_ring_parser.py:45-48 | the name is mangled, and is the mangled default when absent |
| ArmorRingParser.Element | armor_ring_parser.py:64 | a missing element is NEUTRAL |
| ArmorRingParser.MaxArmor | armor_ring_parser.py:50-51 | a missing maxLevelArmor falls back to the minimum armour |
| ArmorRingParser.MaxArmorIsSortValue | armor_ring_parser.py:51 | the printed maximum is the value the armour sort compares, so lines come out in ascending printed maximum |
| ArmorRingParser.Upgrades | armor_ring_parser.py:52 | upgrades is always truthy, and is maxLevelAllowed when that is truthy |
| ArmorRingParser.Lines | armor_ring_parser.py:66-74 | one line per block, in order |
| ArmorRingParser.GenerateArmorCode | armor_ring_parser.py:36-76 | nothing for a non-list; otherwise one armour line per dict element, in ascending stable order of maximum armour |
| ArmorRingParser.GenerateRingCode | armor_ring_parser.py:79-114 | nothing for a non-list; otherwise one ring line per dict element, sorted by armour |
| ArmorRingParser.NonDictElementRaises | armor_ring_parser.py:41-44 | as written, a list holding a string raises in the sort, although the isinstance check shows it was meant to be skipped |
| WeaponParser.Element | weapon_parser.py:20 | the element is upper case and never empty, NEUTRAL standing in for an empty or missing one |
| WeaponParser.MaxDamage | weapon_parser.py:24-29 | the first truthy one of maxLevelDamage, maxleveldamage and max_damage, else damage (default 0) |
| WeaponParser.MaxDamageTruthy | weapon_parser.py:24-29 | the maximum is falsy only when all four fields are, so a zero maximum falls through |
| WeaponParser.Upgrades | weapon_parser.py:31 | upgrades is never falsy, and is maxLevelAllowed when that is truthy |
| WeaponParser.RawPrices | weapon_parser.py:43-48 | six price values, one per price key |
| WeaponParser.ExtractCommonFields | weapon_parser.py:11-72 | the weapon type is the argument, the name is mangled (or the mangled default), the element is non-empty, maxDamage and upgrades follow their rules, and the six prices default to 0 in key order |
| WeaponParser.SortByMaxDamage | weapon_parser.py:6-8 | the sort by maxDamage is ascending, a permutation and stable |
| WeaponParser.ExtractedDicts | weapon_parser.py:80-84 | the first loop extracts exactly the dict elements, in order, whatever their type field |
| WeaponParser.WeaponLines | weapon_parser.py:88-106 | one line per weapon, in order |
| WeaponParser.CollectWeapons | weapon_parser.py:80-84 | the first loop collects the extracted dict elements; a non-list gives none |
| WeaponParser.GenerateWeaponCode | weapon_parser.py:75-108 | the dict elements are extracted, sorted stably by maximum damage and rendered one line each |
| WeaponParser.RenderWeapons | weapon_parser.py:88-106 | the second loop renders each weapon once, in order |
| WeaponParser.AxeShortcut | weapon_parser.py:132-133 | the axe shortcut's literals follow the bucket pattern: AXE, axeList, axe, test_axe |
| WeaponParser.GenerateCategoryCode | weapon_parser.py:112-133 | each shortcut generates with its type, list name, drawable prefix and default name |
| Parser.ProcessBoost | parser.py:18-19 | a value equal to 1 gives 0; otherwise (v - 1) * 100 truncated toward zero |
| Parser.ProcessBoostInt | parser.py:19 | on an integer v the result is (v - 1) * 100, so 1 is no special case |
| Parser.ProcessBoostPercent | parser.py:19 | in exact arithmetic, a multiplier 1 + p/100 gives back p (Python's binary floats can give p - 1; see Left out) |
| Parser.ProcessBoostZero | parser.py:19 | a zero boost gives -100 here and 0 in armor_ring_parser.py |
| Parser.Cleaned | parser.py:23-24 | the cleaned text has no apostrophe and no '+' |
| Parser.CleanName | parser.py:21-25 | a falsy name comes back unchanged; a truthy one is cleaned |
| Parser.CleanedIsReplace | parser.py:23-24 | the two replace calls, in their order, are the character-wise cleaning |
| Parser.CleanedOfClean | parser.py:21-25 | a text with no apostrophe and no '+' is already clean |
| Parser.CleanNameIdempotent | parser.py:21-25 | `clean_name` is idempotent |
| Parser.Walk | parser.py:27-71 | every block the search yields is of the wanted kind |
| Parser.WalkKeys | parser.py:66-69 | every block found under a dict's values is of the wanted kind |
| Parser.WalkKeysAppend | parser.py:67-69 | a dict's keys are searched in order: keys a + b give a's blocks, then b's |
| Parser.WalkCandidates | parser.py:27-71 | the blocks rendered are the reachable dicts of the wanted kind, reordered |
| Parser.WalkKeysCandidates | parser.py:66-69 | the same, for the values under a dict's keys |
| Parser.WalkCount | parser.py:27-71 | the number of lines is the number of reachable dicts of the wanted kind |
| Parser.ListWalk | parser.py:31-36 | a list's blocks come out in ascending level order, and are exactly its dicts of the wanted kind |
| Parser.ListDoesNotDescend | parser.py:35-36 | lists and dicts inside a list are not searched: a dict element is taken or dropped whole, and a nested list gives nothing |
| Parser.ItemName | parser.py:37 | the name has no blank and no capital, and is the default when absent |
| Parser.SnakeSpaceless | parser.py:37 | `.replace(" ", "_").lower()` leaves no blank and no capital |
| Parser.DefaultNameKept | parser.py:37 | `test_armor` and `test_ring` come through the renaming unchanged |
| Parser.Lines | parser.py:58-65 | one line per block, in order |
| Parser.LinesAppend | parser.py:69 | the lines of a + b are a's lines, then b's |
| Parser.RenderSelected | parser.py:35-65 | the loop over a sorted list renders exactly its blocks of the wanted kind, in order |
| Parser.KeyStep | parser.py:67-69 | one pass over a dict's key appends the lines found under its value |
| Parser.GenerateCode | parser.py:27-71 | on a value Python can build (each dict key listed once), the lines are those of the blocks the search finds, in order, one per reachable dict of the wanted kind |
| Parser.StringListRaises | parser.py:33 | as written, the search reaches a list of strings and the sort raises on it, although the isinstance check shows those elements were meant to be passed over |
| Parser.SortAsWrittenAgrees | parser.py:33-36 | on a list of dicts only, the sort as written and the model agree |

## Left out

- Network access: `fetch_json_from_url` (parser.py) and `get_online_item_data` (online_data.py) are not modelled. The feed arrives as a `Value`.
- Files and directories are not modelled: directory listings, `open`, `os.walk`, `Path.glob`, and the XML parse and the writers of language_getter.py. Each reader takes the lines or text of its files in listing order, and language_getter.py's database builders take the `.strings` lines already tagged with their language and file name.
- main.py is not part of this model. It is a script of fetch-and-write calls, and its import names a function armor_ring_parser.py does not define.
- formatter.py is not part of this model. It renders human-readable lines with `str.title` and float rounding.
- ClassParser: `format_class_human` is not modelled. It repeats the block loop of `generate_class_code` with `int()` truncation and `str.title`.
- EnemyParser: `export_to_txt` is not modelled. It is `parse_enemy_stats` writing to a file.
- Floats are exact reals. `str()` of a float is modelled for short decimals only. `float()` does not accept exponents, `inf` or `nan`.
- Parser.ProcessBoost, Parser.ProcessBoostPercent: `int((value - 1) * 100)` is taken of the exact real, not of the binary float product. Python's truncation of that product gives p - 1 for multipliers such as 1.2 (19) and 1.15 (14), and -9 for 0.9, where the model computes 20, 15 and -10. The round trip p -> 1 + p/100 -> p is a property of the exact-real model only.
- ArmorRingParser.ProcessBoost: `round((value - 1) * 100)` is computed on the exact real. Rounding to the nearest integer absorbs the binary error of the product, so for whole percentages the results agree with Python's.
- ClassParser.Calc: `math.floor` applies to the exact real, not to the binary float product. Python's floor of that product gives p - 1 for multipliers such as 1.2 (19) and 1.15 (14), which the model computes as 20 and 15. Whole-number boosts are exact in both.
- EnemyParser.MotionReady, EnemyParser.DeveloperReady: these require numbers where Python would also accept a numeric string. Parsed character values are never such strings, because the block parser already turns them into floats.
- LanguageMatch.MakeXmlString: builds `inject` with the intended scan that captures each number, so MatchStrings and the whole matching pass model the corrected program. As written, every number is captured as "" (LanguageMatch.InjectsAsWrittenBlanksNumbers).
- Values.Show: `str()` of a list or a dict is rendered as the placeholder "[...]" or "{...}", not as Python's repr of the elements.
- Regular expressions are written out as scanners over ASCII. `lower`, `upper` and `title` are modelled on ASCII only. `strip`, `lstrip` and `rstrip` without arguments remove ASCII whitespace only (`Text.Whitespace`): Python also removes `\x85`, `\xa0`, `\u2000`-`\u200a`, `\u3000` and the other Unicode spaces, so `"\xa0Prix".strip()` is `"Prix"` in Python and keeps the no-break space here; this reaches `norm_key` and `parse_line` on translated files. `isdigit` (`Text.IsDigit`) takes the ASCII digits 0-9 only.
- FileParser.DigitTest: Python's `isdigit` also holds for other Unicode digits such as "\u0663" (Arabic-Indic three) and "\u00b2" (superscript two); the model's test is false for them.
- FileParser.CoerceNumber: Python turns "\u0663" into the int 3, and `int("\u00b2")` raises a ValueError that nothing catches at file_parser.py:27; the model keeps both as strings.
- EnemyParser.Numeric: `Values.ParseFloat` reads ASCII decimal literals only, so texts that Python's `float()` reads, such as "1_5" (15.0), "1e3", "inf", non-ASCII digits or non-ASCII surrounding whitespace, stay text here; through the same function `ClassParser.Calc` counts such a boost as 0.
- Sorting.Orderable: two or more list-valued sort keys are treated as unorderable, while Python's `sorted()` compares lists element by element. Only list-valued sort fields of the JSON feed, such as `maxLevelArmor` or `maxLevelDamage`, could be such keys (values read from .enml files are never lists), and their lines would print through the `Values.Show` placeholder anyway.
- WeaponParser.ExtractCommonFields: the result is a datatype rather than a 21-key dict. It groups the six prices in one sequence, in the order of ArmorRingParser.PriceKeys.
- Debug `print` output is not modelled anywhere.
- language_getter.py writes `found_any_lang` and the line for each language into open files. Here they are returned as per-language lists of lines, without the XML header and footer.

## Findings

| source | as written | input that shows it | evidently intended | confidence | as-written member | corrected member |
|---|---|---|---|---|---|---|
| language_getter.py:152 | `re.findall(r"[\d\.]+\|(<new-game-plus>)", text)` has one capturing group, so `findall` returns the group, which is "" for every number match | the text "Deals 10 damage" captures [""] | capture the number itself, ["10"], so that the translation gets the original number back | not executed | LanguageMatch.InjectsAsWrittenLosesNumber | LanguageMatch.InjectsOfNumbers |
| armor_ring_parser.py:41 | the list is sorted before the `isinstance(block, dict)` check, and the sort key calls `.get` on every element | a list holding one string, ["x"], raises AttributeError | non-dict elements are skipped, leaving the lines of the dicts | not executed | ArmorRingParser.NonDictElementRaises | ArmorRingParser.GenerateArmorCode |
| parser.py:33 | the same sort-before-check, in a search that reaches every list in the feed | the feed {"tags": ["x"]} raises AttributeError | non-dict list elements are passed over, so this feed gives no line | not executed | Parser.StringListRaises | Parser.GenerateCode |
