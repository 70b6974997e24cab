/** language_getter.py, the databases: the English key and text maps, and the
    translations database with its per-file map (last write wins), its
    filename-agnostic index (first write wins) and its numbered families (first
    value per number). The directory walk is left out: the lines of the
    `.strings` files arrive in walk order, each tagged with its language and
    file name. */
module LanguageDb {
  import opened Text
  import opened Values
  import opened LanguageKeys

  /** TARGET_LANGUAGES */
  const TargetLanguages: seq<string> := ["de", "es", "fr", "it", "pt", "ru", "tr", "uk", "ja"]

  /** One line of a `.strings` file lang/<lang>/.../<fname>. */
  datatype SourceLine = SourceLine(lang: string, fname: string, text: string)

  /** The languages whose files are read; 'en' is skipped by name as well. */
  predicate Translated(lang: string)
  {
    lang != "en" && lang in TargetLanguages
  }

  // ---------------------------------------------------------------- the English maps

  /** The (norm_key(key), (key, fname)) a line of an English file writes, if any. */
  function KeyLocationOf(line: SourceLine): (r: Option<(string, (string, string))>)
    ensures r.Some? ==> NormKey(r.value.0) == r.value.0
  {
    match ParseLine(line.text)
    case Some((key, _)) =>
      NormKeyIdempotent(key);
      if key != [] then Some((NormKey(key), (key, line.fname))) else None
    case None => None
  }

  /** create_key_locations_map */
  function KeyLocations(lines: seq<SourceLine>): map<string, (string, string)>
  {
    Assigned(Collect(lines, KeyLocationOf))
  }

  /** The (normalize_string(value), (key, fname)) a line of an English file writes, if any. */
  function EnglishTextOf(line: SourceLine): Option<(string, (string, string))>
  {
    match ParseLine(line.text)
    case Some((key, value)) => if key != [] && value != [] then Some((NormalizeString(value), (key, line.fname))) else None
    case None => None
  }

  /** create_english_text_db */
  function EnglishTextDb(lines: seq<SourceLine>): map<string, (string, string)>
  {
    Assigned(Collect(lines, EnglishTextOf))
  }

  /** create_key_locations_map, as the loop over the English lines does it. */
  method CreateKeyLocationsMap(lines: seq<SourceLine>) returns (keyMap: map<string, (string, string)>)
    ensures keyMap == KeyLocations(lines)
  {
    keyMap := map[];
    var i := 0;
    while i < |lines|
      invariant 0 <= i <= |lines|
      invariant keyMap == KeyLocations(lines[..i])
    {
      CollectStep(lines, i, KeyLocationOf);
      var found := KeyLocationOf(lines[i]);
      AssignedAppend(Collect(lines[..i], KeyLocationOf), if found.Some? then [found.value] else []);
      var parsed := ParseLine(lines[i].text);
      if parsed.Some? && parsed.value.0 != [] {
        var key := parsed.value.0;
        keyMap := keyMap[NormKey(key) := (key, lines[i].fname)];
      }
      i := i + 1;
    }
    WholePrefix(lines);
  }

  /** create_english_text_db, as the loop over the English lines does it. */
  method CreateEnglishTextDb(lines: seq<SourceLine>) returns (db: map<string, (string, string)>)
    ensures db == EnglishTextDb(lines)
  {
    db := map[];
    var i := 0;
    while i < |lines|
      invariant 0 <= i <= |lines|
      invariant db == EnglishTextDb(lines[..i])
    {
      CollectStep(lines, i, EnglishTextOf);
      var found := EnglishTextOf(lines[i]);
      AssignedAppend(Collect(lines[..i], EnglishTextOf), if found.Some? then [found.value] else []);
      var parsed := ParseLine(lines[i].text);
      if parsed.Some? && parsed.value.0 != [] && parsed.value.1 != [] {
        var (key, value) := parsed.value;
        db := db[NormalizeString(value) := (key, lines[i].fname)];
      }
      i := i + 1;
    }
    WholePrefix(lines);
  }

  /** Every key of the key map is a normalised key: looking it up again with
      norm_key finds the same slot. */
  lemma KeyLocationsNormalised(lines: seq<SourceLine>, k: string)
    requires k in KeyLocations(lines)
    ensures NormKey(k) == k
  {
    var pairs := Collect(lines, KeyLocationOf);
    AssignedKeys(pairs, k);
    var j :| 0 <= j < |pairs| && pairs[j].0 == k;
    CollectFrom(lines, KeyLocationOf, j);
  }

  // ---------------------------------------------------------------- create_translations_db

  /** A line's contribution: language, file, normalised key, value, and the key's
      split into base and number. */
  datatype Entry = Entry(lang: string, fname: string, key: string, value: string, parts: KeyParts)

  /** What one line adds: nothing for a skipped language, a line parse_line
      rejects, or an empty key. */
  function LineEntry(line: SourceLine): (r: Option<Entry>)
    ensures r.Some? ==> Translated(r.value.lang) && r.value.parts == KeyBaseAndNum(r.value.key)
  {
    if line.lang == "en" || line.lang !in TargetLanguages then None
    else
      match ParseLine(line.text)
      case Some((key, value)) =>
        if key != [] then
          var nk := NormKey(key);
          Some(Entry(line.lang, line.fname, nk, value, KeyBaseAndNum(nk)))
        else None
      case None => None
  }

  /** The entries of the lines, in order. */
  function Entries(lines: seq<SourceLine>): seq<Entry>
  {
    Collect(lines, LineEntry)
  }

  /** Only the target languages other than English contribute. */
  lemma EntriesTranslated(lines: seq<SourceLine>, j: int)
    requires 0 <= j < |Entries(lines)|
    ensures Translated(Entries(lines)[j].lang)
  {
    CollectFrom(lines, LineEntry, j);
  }

  /** db[lang][fname][nk] = value, flattened to one key per (lang, fname, nk). */
  function FilePairs(es: seq<Entry>): (r: seq<((string, string, string), string)>)
    ensures |r| == |es|
    ensures forall j :: 0 <= j < |es| ==> r[j] == ((es[j].lang, es[j].fname, es[j].key), es[j].value)
  {
    if es == [] then []
    else FilePairs(es[..|es| - 1]) + [((es[|es| - 1].lang, es[|es| - 1].fname, es[|es| - 1].key), es[|es| - 1].value)]
  }

  /** index[lang].setdefault(nk, (value, fname)), flattened to (lang, nk). */
  function IndexPairs(es: seq<Entry>): (r: seq<((string, string), (string, string))>)
    ensures |r| == |es|
    ensures forall j :: 0 <= j < |es| ==> r[j] == ((es[j].lang, es[j].key), (es[j].value, es[j].fname))
  {
    if es == [] then []
    else IndexPairs(es[..|es| - 1]) + [((es[|es| - 1].lang, es[|es| - 1].key), (es[|es| - 1].value, es[|es| - 1].fname))]
  }

  function FileDb(es: seq<Entry>): map<(string, string, string), string>
  {
    Assigned(FilePairs(es))
  }

  function KeyIndex(es: seq<Entry>): map<(string, string), (string, string)>
  {
    FirstAssigned(IndexPairs(es))
  }

  /** The numbered family of one base: digits -> (value, fname), in insertion order. */
  type Family = seq<(string, (string, string))>

  predicate HasDigits(family: Family, d: string)
  {
    exists j :: 0 <= j < |family| && family[j].0 == d
  }

  /** by_base[lang].setdefault(base, {}), then the first value per digits. */
  function AddToFamilies(byBase: map<(string, string), Family>, e: Entry): map<(string, string), Family>
  {
    var parts := e.parts;
    var slot := (e.lang, parts.base);
    var withSlot := if slot in byBase then byBase else byBase[slot := []];
    if parts.digits.Some? && !HasDigits(withSlot[slot], parts.digits.value)
    then withSlot[slot := withSlot[slot] + [(parts.digits.value, (e.value, e.fname))]]
    else withSlot
  }

  function Families(es: seq<Entry>): map<(string, string), Family>
  {
    if es == [] then map[] else AddToFamilies(Families(es[..|es| - 1]), es[|es| - 1])
  }

  /** The three databases after a prefix of the entries, one step further. */
  lemma DbStep(es: seq<Entry>, e: Entry)
    ensures FileDb(es + [e]) == FileDb(es)[(e.lang, e.fname, e.key) := e.value]
    ensures KeyIndex(es + [e]) == if (e.lang, e.key) in KeyIndex(es) then KeyIndex(es)
                                  else KeyIndex(es)[(e.lang, e.key) := (e.value, e.fname)]
    ensures Families(es + [e]) == AddToFamilies(Families(es), e)
  {
    var s := es + [e];
    assert s[..|s| - 1] == es;
    assert FilePairs(s) == FilePairs(es) + [((e.lang, e.fname, e.key), e.value)];
    assert IndexPairs(s) == IndexPairs(es) + [((e.lang, e.key), (e.value, e.fname))];
    assert IndexPairs(s)[..|es|] == IndexPairs(es);
  }

  /** The setdefault and the family update of one line, as the loop body does them. */
  method AddFamilyMember(byBase: map<(string, string), Family>, e: Entry)
    returns (updated: map<(string, string), Family>)
    ensures updated == AddToFamilies(byBase, e)
  {
    var parts := e.parts;
    var slot := (e.lang, parts.base);
    updated := byBase;
    if slot !in updated {
      updated := updated[slot := []];
    }
    if parts.digits.Some? && !HasDigits(updated[slot], parts.digits.value) {
      updated := updated[slot := updated[slot] + [(parts.digits.value, (e.value, e.fname))]];
    }
  }

  /** The checks of one line before it is stored: the language, the parse and
      the key. */
  method ReadLine(line: SourceLine) returns (entry: Option<Entry>)
    ensures entry == LineEntry(line)
  {
    if line.lang == "en" || line.lang !in TargetLanguages {
      return None;
    }
    var parsed := ParseLine(line.text);
    if parsed.Some? && parsed.value.0 != [] {
      var nk := NormKey(parsed.value.0);
      var parts := KeyBaseAndNum(nk);
      return Some(Entry(line.lang, line.fname, nk, parsed.value.1, parts));
    }
    return None;
  }

  lemma EntriesStep(lines: seq<SourceLine>, i: int)
    requires 0 <= i < |lines|
    ensures Entries(lines[..i + 1]) == if LineEntry(lines[i]).Some? then Entries(lines[..i]) + [LineEntry(lines[i]).value]
                                       else Entries(lines[..i])
  {
    CollectStep(lines, i, LineEntry);
  }

  /** create_translations_db: one pass over the lines in walk order. */
  method CreateTranslationsDb(lines: seq<SourceLine>)
    returns (db: map<(string, string, string), string>,
             index: map<(string, string), (string, string)>,
             byBase: map<(string, string), Family>)
    ensures db == FileDb(Entries(lines))
    ensures index == KeyIndex(Entries(lines))
    ensures byBase == Families(Entries(lines))
  {
    db, index, byBase := map[], map[], map[];
    var i := 0;
    while i < |lines|
      invariant 0 <= i <= |lines|
      invariant db == FileDb(Entries(lines[..i]))
      invariant index == KeyIndex(Entries(lines[..i]))
      invariant byBase == Families(Entries(lines[..i]))
    {
      EntriesStep(lines, i);
      var entry := ReadLine(lines[i]);
      if entry.Some? {
        var e := entry.value;
        DbStep(Entries(lines[..i]), e);
        db := db[(e.lang, e.fname, e.key) := e.value];
        if (e.lang, e.key) !in index {
          index := index[(e.lang, e.key) := (e.value, e.fname)];
        }
        byBase := AddFamilyMember(byBase, e);
      }
      i := i + 1;
    }
    WholePrefix(lines);
  }

  // ---------------------------------------------------------------- properties

  /** The per-file map holds the value of the last line with that language, file
      and normalised key. */
  lemma FileDbLastWins(es: seq<Entry>, i: int)
    requires 0 <= i < |es|
    requires forall j :: i < j < |es| ==> (es[j].lang, es[j].fname, es[j].key) != (es[i].lang, es[i].fname, es[i].key)
    ensures (es[i].lang, es[i].fname, es[i].key) in FileDb(es)
    ensures FileDb(es)[(es[i].lang, es[i].fname, es[i].key)] == es[i].value
  {
    AssignedLastWriteWins(FilePairs(es), i);
  }

  /** The index holds the value and file of the first line with that language
      and normalised key, whatever file it is in. */
  lemma KeyIndexFirstWins(es: seq<Entry>, i: int)
    requires 0 <= i < |es|
    requires forall j :: 0 <= j < i ==> (es[j].lang, es[j].key) != (es[i].lang, es[i].key)
    ensures (es[i].lang, es[i].key) in KeyIndex(es)
    ensures KeyIndex(es)[(es[i].lang, es[i].key)] == (es[i].value, es[i].fname)
  {
    FirstAssignedFirstWins(IndexPairs(es), i);
  }

  /** A family lists each number once, and only numbers. */
  predicate FamilyWellFormed(family: Family)
  {
    && (forall j :: 0 <= j < |family| ==> IsDigits(family[j].0))
    && (forall j, k :: 0 <= j < k < |family| ==> family[j].0 != family[k].0)
  }

  /** The number of every entry is a run of digits, as key_base_and_num gives it. */
  predicate DigitsOk(e: Entry)
  {
    e.parts.digits.Some? ==> IsDigits(e.parts.digits.value)
  }

  lemma EntriesDigitsOk(lines: seq<SourceLine>, j: int)
    requires 0 <= j < |Entries(lines)|
    ensures DigitsOk(Entries(lines)[j])
  {
    CollectFrom(lines, LineEntry, j);
  }

  lemma {:induction false} FamiliesWellFormed(es: seq<Entry>)
    requires forall j :: 0 <= j < |es| ==> DigitsOk(es[j])
    ensures forall slot :: slot in Families(es) ==> FamilyWellFormed(Families(es)[slot])
  {
    if es != [] {
      var init := es[..|es| - 1];
      var e := es[|es| - 1];
      FamiliesWellFormed(init);
      var before: map<(string, string), Family> := Families(init);
      var eslot := (e.lang, e.parts.base);
      var withSlot: map<(string, string), Family> := if eslot in before then before else before[eslot := []];
      assert forall slot :: slot in withSlot ==> FamilyWellFormed(withSlot[slot]);
      if e.parts.digits.Some? && !HasDigits(withSlot[eslot], e.parts.digits.value) {
        var fam: Family := withSlot[eslot];
        var d := e.parts.digits.value;
        assert DigitsOk(e);
        assert FamilyWellFormed(fam + [(d, (e.value, e.fname))]) by {
          forall j | 0 <= j < |fam| ensures fam[j].0 != d {
          }
        }
      }
    }
  }

  /** The member for a number is the first line's with that language, base and
      number; a line's number is always listed in its base's family. */
  lemma {:induction false} FamiliesFirstWins(es: seq<Entry>, i: int)
    requires 0 <= i < |es| && es[i].parts.digits.Some?
    requires forall j :: 0 <= j < i ==> (es[j].lang, es[j].parts) != (es[i].lang, es[i].parts)
    ensures var parts := es[i].parts;
      && (es[i].lang, parts.base) in Families(es)
      && (parts.digits.value, (es[i].value, es[i].fname)) in Families(es)[(es[i].lang, parts.base)]
  {
    var init := es[..|es| - 1];
    var parts := es[i].parts;
    var slot := (es[i].lang, parts.base);
    var member := (parts.digits.value, (es[i].value, es[i].fname));
    if i < |es| - 1 {
      FamiliesFirstWins(init, i);
      FamilyKeeps(Families(init), es[|es| - 1], slot, member);
    } else {
      var d := parts.digits.value;
      assert parts == KeyParts(parts.base, Some(d));
      FamilyNeedsLine(init, slot, d);
    }
  }

  /** Adding a line never drops a family member. */
  lemma FamilyKeeps(byBase: map<(string, string), Family>, e: Entry, slot: (string, string), member: (string, (string, string)))
    requires slot in byBase && member in byBase[slot]
    ensures slot in AddToFamilies(byBase, e) && member in AddToFamilies(byBase, e)[slot]
  {
  }

  /** A number is in a family only if some line has that language, base and number. */
  lemma {:induction false} FamilyNeedsLine(es: seq<Entry>, slot: (string, string), d: string)
    requires forall j :: 0 <= j < |es| ==> (es[j].lang, es[j].parts) != (slot.0, KeyParts(slot.1, Some(d)))
    ensures slot in Families(es) ==> !HasDigits(Families(es)[slot], d)
  {
    if es != [] {
      var init := es[..|es| - 1];
      var e := es[|es| - 1];
      FamilyNeedsLine(init, slot, d);
      var before: map<(string, string), Family> := Families(init);
      var eslot := (e.lang, e.parts.base);
      var withSlot: map<(string, string), Family> := if eslot in before then before else before[eslot := []];
      assert slot in withSlot ==> !HasDigits(withSlot[slot], d);
      if eslot == slot && e.parts.digits.Some? && !HasDigits(withSlot[slot], e.parts.digits.value) {
        var fam: Family := withSlot[slot] + [(e.parts.digits.value, (e.value, e.fname))];
        assert e.parts.digits.value != d;
        forall j | 0 <= j < |fam| ensures fam[j].0 != d {
          if j < |withSlot[slot]| {
            assert fam[j] == withSlot[slot][j];
          }
        }
      }
    }
  }
}
