/** armor_ring_parser.py: the Java constructor lines for armours and rings, built
    from the item feed's list of item dicts, sorted by armour and closed by the
    six prices. */
module ArmorRingParser {
  import opened Text
  import opened Values
  import opened Sorting

  // ---------------------------------------------------------------- process_boost

  /** process_boost: a multiplier as a whole percentage above 1; the multipliers
      0 and 1 both mean "no boost". Anything but a number raises TypeError. */
  function ProcessBoost(v: Value): int
    requires IsNumber(v)
  {
    var x := AsReal(v);
    if x == 0.0 || x == 1.0 then 0 else RoundHalfEven((x - 1.0) * 100.0)
  }

  /** The multiplier 1 + p/100 reads back as the percentage p, except the
      multiplier 0 (p = -100), which is taken for "no boost". */
  lemma ProcessBoostPercent(p: int)
    ensures ProcessBoost(Float(1.0 + p as real / 100.0)) == if p == -100 then 0 else p
  {
    var x := 1.0 + p as real / 100.0;
    assert (x - 1.0) * 100.0 == p as real;
    assert x == 0.0 <==> p == -100;
    assert x == 1.0 <==> p == 0;
  }

  // ---------------------------------------------------------------- sort_by_max_armor

  /** The value sort_by_max_armor compares: armor for a ring, otherwise
      maxLevelArmor, falling back to armor, then to 0. */
  function SortValue(e: Entity, isRing: bool): Value
  {
    if isRing then Get(e, "armor", Int(0))
    else Get(e, "maxLevelArmor", Get(e, "armor", Int(0)))
  }

  function ArmorKey(isRing: bool): Entity -> Key
  {
    e => KeyOrZero(SortValue(e, isRing))
  }

  function SortValues(es: seq<Entity>, isRing: bool): (r: seq<Value>)
    ensures |r| == |es| && forall i :: 0 <= i < |es| ==> r[i] == SortValue(es[i], isRing)
  {
    seq(|es|, i requires 0 <= i < |es| => SortValue(es[i], isRing))
  }

  /** sort_by_max_armor: an ascending, stable sort; sorted() raises TypeError
      unless the compared values are all numbers or all strings. */
  function SortByMaxArmor(es: seq<Entity>, isRing: bool): (r: seq<Entity>)
    requires Orderable(SortValues(es, isRing))
    ensures SortedBy(r, ArmorKey(isRing))
    ensures multiset(r) == multiset(es)
    ensures forall k :: Select(r, ArmorKey(isRing), k) == Select(es, ArmorKey(isRing), k)
    ensures |r| == |es| && forall i :: 0 <= i < |r| ==> r[i] in es
  {
    SortBySpec(es, ArmorKey(isRing));
    var r := SortBy(es, ArmorKey(isRing));
    assert forall i :: 0 <= i < |r| ==> r[i] in multiset(r);
    r
  }

  // ---------------------------------------------------------------- prices

  /** The six price fields, in the order the constructors take them. */
  const PriceKeys: seq<string> := ["freemiumGoldPrice", "premiumGoldPrice", "freemiumCoinPrice",
                                   "premiumCoinPrice", "baseFreemiumSellPrice", "basePremiumSellPrice"]

  /** block.get(k), with None (absent or null) read as 0. */
  function PriceOf(block: Entity, k: string): (r: Value)
    ensures r != Null
    ensures k in block && block[k] != Null ==> r == block[k]
    ensures k !in block || block[k] == Null ==> r == Int(0)
  {
    var v := Get(block, k, Null);
    if v == Null then Int(0) else v
  }

  /** The prices of block under keys, one per key, in key order. */
  function Prices(block: Entity, keys: seq<string>): (r: seq<Value>)
    ensures |r| == |keys|
    ensures forall i :: 0 <= i < |keys| ==> r[i] == PriceOf(block, keys[i])
  {
    if keys == [] then []
    else Prices(block, keys[..|keys| - 1]) + [PriceOf(block, keys[|keys| - 1])]
  }

  /** _price_values_in_order: exactly six values, in the fixed key order, with
      a missing or null price as 0. */
  method PriceValuesInOrder(block: Entity) returns (vals: seq<Value>)
    ensures vals == Prices(block, PriceKeys)
    ensures |vals| == 6 && forall i :: 0 <= i < 6 ==> vals[i] != Null
  {
    vals := [];
    var i := 0;
    while i < |PriceKeys|
      invariant 0 <= i <= |PriceKeys|
      invariant vals == Prices(block, PriceKeys[..i])
    {
      assert PriceKeys[..i + 1][..i] == PriceKeys[..i];
      vals := vals + [PriceOf(block, PriceKeys[i])];
      i := i + 1;
    }
    WholePrefix(PriceKeys);
  }

  function ShowAll(vs: seq<Value>): (r: seq<string>)
    ensures |r| == |vs| && forall i :: 0 <= i < |vs| ==> r[i] == Show(vs[i])
  {
    seq(|vs|, i requires 0 <= i < |vs| => Show(vs[i]))
  }

  /** _append_price_params: the code so far, ", ", the six prices joined by
      ", ", and "));". */
  function AppendPriceParams(code: string, block: Entity): string
  {
    code + ", " + Join(ShowAll(Prices(block, PriceKeys)), ", ") + "));"
  }

  /** When the six prices are numbers, the price suffix reads back: what lies
      between the code and "));" splits at ',' into exactly six fields, which
      strip to the six prices' texts. */
  lemma PriceParamsReadBack(code: string, block: Entity)
    requires forall i :: 0 <= i < 6 ==> IsNumber(PriceOf(block, PriceKeys[i]))
    ensures var r := AppendPriceParams(code, block);
      |code| + 5 <= |r| && r[..|code|] == code && r[|r| - 3..] == "));"
      && StripEach(Split(r[|code| + 2..|r| - 3], ',')) == ShowAll(Prices(block, PriceKeys))
  {
    var shown := ShowAll(Prices(block, PriceKeys));
    PricesClean(block);
    ReadBackCommaList(shown);
    SuffixParts(code, Join(shown, ", "));
  }

  lemma PricesClean(block: Entity)
    requires forall i :: 0 <= i < 6 ==> IsNumber(PriceOf(block, PriceKeys[i]))
    ensures var shown := ShowAll(Prices(block, PriceKeys));
      shown != [] && forall i :: 0 <= i < |shown| ==> CleanField(shown[i])
  {
    var vals := Prices(block, PriceKeys);
    forall i | 0 <= i < |vals| ensures CleanField(Show(vals[i])) {
      ShowNumberClean(vals[i]);
    }
  }

  lemma SuffixParts(code: string, mid: string)
    ensures var r := code + ", " + mid + "));";
      |code| + 5 <= |r| && r[..|code|] == code && r[|r| - 3..] == "));" && r[|code| + 2..|r| - 3] == mid
  {
  }

  // ---------------------------------------------------------------- names

  /** The name mangling of the generators: blanks to '_', apostrophes dropped,
      '+' to "_plus", '-' dropped, then lower case. */
  function Mangle(raw: string): string
  {
    Lower(Replace(Replace(Replace(Replace(raw, " ", "_"), "'", ""), "+", "_plus"), "-", ""))
  }

  /** A name the mangling produces: no blank, apostrophe, '+' or '-', no capital. */
  predicate Mangled(s: string)
  {
    ' ' !in s && '\'' !in s && '+' !in s && '-' !in s
    && forall i :: 0 <= i < |s| ==> !IsUpperChar(s[i])
  }

  lemma MangleClean(raw: string)
    ensures Mangled(Mangle(raw))
  {
    var a := Replace(raw, " ", "_");
    var b := Replace(a, "'", "");
    var c := Replace(b, "+", "_plus");
    var d := Replace(c, "-", "");
    ReplaceCharRemoves(raw, ' ', "_", ' ');
    ReplaceCharRemoves(a, '\'', "", ' ');
    ReplaceCharRemoves(a, '\'', "", '\'');
    ReplaceCharRemoves(b, '+', "_plus", ' ');
    ReplaceCharRemoves(b, '+', "_plus", '\'');
    ReplaceCharRemoves(b, '+', "_plus", '+');
    ReplaceCharRemoves(c, '-', "", ' ');
    ReplaceCharRemoves(c, '-', "", '\'');
    ReplaceCharRemoves(c, '-', "", '+');
    ReplaceCharRemoves(c, '-', "", '-');
    LowerAbsent(d, ' ');
    LowerAbsent(d, '\'');
    LowerAbsent(d, '+');
    LowerAbsent(d, '-');
  }

  /** A mangled name is left as it is. */
  lemma MangleOfMangled(s: string)
    requires Mangled(s)
    ensures Mangle(s) == s
  {
    ReplaceAbsentChar(s, ' ', "_");
    ReplaceAbsentChar(s, '\'', "");
    ReplaceAbsentChar(s, '+', "_plus");
    ReplaceAbsentChar(s, '-', "");
    LowerOfLower(s);
  }

  /** Mangling twice is mangling once. */
  lemma MangleIdempotent(raw: string)
    ensures Mangle(Mangle(raw)) == Mangle(raw)
  {
    MangleClean(raw);
    MangleOfMangled(Mangle(raw));
  }

  /** The names used when a block has none. */
  const DefaultArmorName: string := "test_armor"
  const DefaultRingName: string := "test_ring"

  /** The default names survive the mangling unchanged. */
  lemma DefaultArmorNameMangled()
    ensures Mangle(DefaultArmorName) == DefaultArmorName
  {
    assert LowerSnake(DefaultArmorName);
    LowerSnakeMangled(DefaultArmorName);
  }

  lemma DefaultRingNameMangled()
    ensures Mangle(DefaultRingName) == DefaultRingName
  {
    assert LowerSnake(DefaultRingName);
    LowerSnakeMangled(DefaultRingName);
  }

  /** Lower-case letters and underscores only. */
  predicate LowerSnake(s: string)
  {
    s == [] || ((IsLowerChar(s[0]) || s[0] == '_') && LowerSnake(s[1..]))
  }

  /** Lower-case letters and underscores are left alone by the mangling. */
  lemma {:induction false} LowerSnakeMangled(s: string)
    requires LowerSnake(s)
    ensures Mangled(s) && Mangle(s) == s
  {
    if s != [] {
      LowerSnakeMangled(s[1..]);
      assert s == [s[0]] + s[1..];
    }
    MangleOfMangled(s);
  }

  /** block.get("name", default), mangled; .replace raises unless it is a string. */
  function ItemName(block: Entity, default: string): (r: string)
    requires StrField(block, "name")
    ensures Mangled(r)
    ensures "name" !in block ==> r == Mangle(default)
  {
    MangleClean(GetStrOr(block, "name", default));
    Mangle(GetStrOr(block, "name", default))
  }

  // ---------------------------------------------------------------- the fields

  /** The nine boosts of an armour line, in order; a ring line puts armorBoost first. */
  const ArmorBoostKeys: seq<string> := ["speedBoost", "jumpBoost", "magicBoost", "swordBoost",
                                        "staffBoost", "daggerBoost", "axeBoost", "hammerBoost", "spearBoost"]
  const RingBoostKeys: seq<string> := ["armorBoost"] + ArmorBoostKeys

  function BoostKeys(isRing: bool): seq<string>
  {
    if isRing then RingBoostKeys else ArmorBoostKeys
  }

  /** Every boost is a number (a missing one defaults to 1). */
  predicate BoostsReady(block: Entity, keys: seq<string>)
  {
    forall i :: 0 <= i < |keys| ==> IsNumber(Get(block, keys[i], Int(1)))
  }

  /** process_boost of each boost, as text. */
  function BoostTexts(block: Entity, keys: seq<string>): (r: seq<string>)
    requires BoostsReady(block, keys)
    ensures |r| == |keys|
  {
    seq(|keys|, i requires 0 <= i < |keys| => IntText(ProcessBoost(Get(block, keys[i], Int(1)))))
  }

  /** A block the generator can render without raising: name and element are
      strings where present, and every boost is a number. */
  predicate Ready(block: Entity, isRing: bool)
  {
    StrField(block, "name") && StrField(block, "element") && BoostsReady(block, BoostKeys(isRing))
  }

  /** block.get("element", "NEUTRAL").upper() */
  function Element(block: Entity): (r: string)
    requires StrField(block, "element")
    ensures "element" !in block ==> r == "NEUTRAL"
  {
    Upper(GetStrOr(block, "element", "NEUTRAL"))
  }

  function MinArmor(block: Entity): Value
  {
    Get(block, "armor", Int(0))
  }

  /** maxLevelArmor, defaulting to the minimum armour. */
  function MaxArmor(block: Entity): (r: Value)
    ensures "maxLevelArmor" !in block ==> r == MinArmor(block)
  {
    Get(block, "maxLevelArmor", MinArmor(block))
  }

  /** The maximum armour an armour line prints is the value its sort compares,
      so the lines come out in ascending order of their printed maximum. */
  lemma MaxArmorIsSortValue(block: Entity)
    ensures MaxArmor(block) == SortValue(block, false)
  {
  }

  /** maxLevelAllowed or 1 */
  function Upgrades(block: Entity): (r: Value)
    ensures Truthy(r)
    ensures "maxLevelAllowed" in block && Truthy(block["maxLevelAllowed"]) ==> r == block["maxLevelAllowed"]
  {
    Or(Get(block, "maxLevelAllowed", Int(1)), Int(1))
  }

  // ---------------------------------------------------------------- the lines

  function ArmorLine(block: Entity): string
    requires Ready(block, false)
  {
    var name := ItemName(block, DefaultArmorName);
    var base := "armorList.add(new Armor(str(context, R.string." + name + "), Elements." + Element(block) + ", "
      + ShowLower(Get(block, "frost", Bool(false))) + ", " + Show(MinArmor(block)) + ", "
      + Show(MaxArmor(block)) + ", " + Show(Upgrades(block)) + ", "
      + Join(BoostTexts(block, ArmorBoostKeys), ", ") + ", R.drawable.armor_" + name;
    AppendPriceParams(base, block)
  }

  function RingLine(block: Entity): string
    requires Ready(block, true)
  {
    var name := ItemName(block, DefaultRingName);
    var base := "ringList.add(new Ring(str(context, R.string." + name + "), Elements." + Element(block) + ", "
      + Show(MinArmor(block)) + ", " + Join(BoostTexts(block, RingBoostKeys), ", ")
      + ", R.drawable.ring_" + name;
    AppendPriceParams(base, block)
  }

  /** The line for a block: a ring line or an armour line. */
  function Line(block: Entity, isRing: bool): string
    requires Ready(block, isRing)
  {
    if isRing then RingLine(block) else ArmorLine(block)
  }

  /** The lines for blocks, one per block, in order. */
  function Lines(es: seq<Entity>, isRing: bool): (r: seq<string>)
    requires forall e :: e in es ==> Ready(e, isRing)
    ensures |r| == |es| && forall i :: 0 <= i < |es| ==> r[i] == Line(es[i], isRing)
  {
    seq(|es|, i requires 0 <= i < |es| => Line(es[i], isRing))
  }

  /** The generator does not raise on a list: every dict element can be rendered,
      and the sort can compare their sort values. */
  predicate ListReady(items: seq<Value>, isRing: bool)
  {
    && (forall e :: e in DictsOf(items) ==> Ready(e, isRing))
    && Orderable(SortValues(DictsOf(items), isRing))
  }

  /** generate_armor_code: no lines for anything but a list; for a list, one line
      per dict element, in ascending stable order of maximum armour. The other
      elements are skipped (see SortAsWritten for the code as written). */
  method GenerateArmorCode(data: Value) returns (lines: seq<string>)
    requires data.List? ==> ListReady(data.items, false)
    ensures !data.List? ==> lines == []
    ensures data.List? ==> lines == Lines(SortByMaxArmor(DictsOf(data.items), false), false)
    ensures data.List? ==> |lines| == |DictsOf(data.items)|
  {
    lines := [];
    if data.List? {
      var sorted := SortByMaxArmor(DictsOf(data.items), false);
      ghost var want := Lines(sorted, false);
      var i := 0;
      while i < |sorted|
        invariant 0 <= i <= |sorted|
        invariant lines == want[..i]
      {
        PrefixStep(want, i);
        lines := lines + [ArmorLine(sorted[i])];
        i := i + 1;
      }
      WholePrefix(want);
    }
  }

  /** generate_ring_code: as generate_armor_code, with ring lines, sorted by armor. */
  method GenerateRingCode(data: Value) returns (lines: seq<string>)
    requires data.List? ==> ListReady(data.items, true)
    ensures !data.List? ==> lines == []
    ensures data.List? ==> lines == Lines(SortByMaxArmor(DictsOf(data.items), true), true)
    ensures data.List? ==> |lines| == |DictsOf(data.items)|
  {
    lines := [];
    if data.List? {
      var sorted := SortByMaxArmor(DictsOf(data.items), true);
      ghost var want := Lines(sorted, true);
      var i := 0;
      while i < |sorted|
        invariant 0 <= i <= |sorted|
        invariant lines == want[..i]
      {
        PrefixStep(want, i);
        lines := lines + [RingLine(sorted[i])];
        i := i + 1;
      }
      WholePrefix(want);
    }
  }

  // ---------------------------------------------------------------- the sort as written

  /** The two generators as written sort the whole list before checking each
      element is a dict, and the sort key calls .get on every element, so an
      element that is not a dict raises AttributeError (None here) instead of
      being skipped. Otherwise the dicts come out in the sorted order. */
  function SortAsWritten(items: seq<Value>, isRing: bool): Option<seq<Entity>>
    requires Orderable(SortValues(DictsOf(items), isRing))
  {
    if exists i :: 0 <= i < |items| && !items[i].Dict? then None
    else Some(SortByMaxArmor(DictsOf(items), isRing))
  }

  /** A list holding one string: the code as written raises, while the check it
      performs after sorting shows the element was meant to be skipped, leaving
      no dict and so no line. */
  lemma NonDictElementRaises()
    ensures SortAsWritten([Str("x")], false) == None
    ensures SortAsWritten([Str("x")], true) == None
    ensures DictsOf([Str("x")]) == []
  {
    assert ![Str("x")][0].Dict?;
    assert [Str("x")][..0] == [];
  }
}
