/** parser.py: the first, self-contained generator. It walks the JSON tree of the
    item feed: a list is sorted by maxLevelArmor and its dict elements of the
    wanted kind become Java lines; a dict is searched value by value, in key
    order, and the lines found below it are concatenated. */
module Parser {
  import opened Text
  import opened Values
  import opened Sorting
  import ArmorRingParser
  import WeaponParser

  // ---------------------------------------------------------------- process_boost

  /** process_boost: 0 for a value equal to 1, else int((value - 1) * 100), which
      truncates toward zero. Unlike the later generators, 0 is not special. */
  function ProcessBoost(v: Value): (r: int)
    requires IsNumber(v)
    ensures EqualsNumber(v, 1.0) ==> r == 0
    ensures var d := (AsReal(v) - 1.0) * 100.0;
      (0.0 <= d ==> r as real <= d < r as real + 1.0) && (d < 0.0 ==> r as real - 1.0 < d <= r as real)
  {
    if EqualsNumber(v, 1.0) then 0 else Trunc((AsReal(v) - 1.0) * 100.0)
  }

  /** On an integer the special case for 1 is no special case: (v - 1) * 100. */
  lemma ProcessBoostInt(i: int)
    ensures ProcessBoost(Int(i)) == (i - 1) * 100
  {
    var d := (i as real - 1.0) * 100.0;
    assert d == ((i - 1) * 100) as real;
  }

  /** In exact arithmetic, a boost factor 1 + p/100 for a whole percentage p
      gives back p. */
  lemma ProcessBoostPercent(p: int)
    ensures ProcessBoost(Float(1.0 + p as real / 100.0)) == p
  {
    var d := (1.0 + p as real / 100.0 - 1.0) * 100.0;
    assert d == p as real;
  }

  /** A missing boost (0) reads as -100 here, where armor_ring_parser.py reads it as 0. */
  lemma ProcessBoostZero()
    ensures ProcessBoost(Int(0)) == -100
    ensures ArmorRingParser.ProcessBoost(Int(0)) == 0
  {
    ProcessBoostInt(0);
  }

  // ---------------------------------------------------------------- clean_name

  /** What clean_name makes of one character. */
  function CleanChar(c: char): string
  {
    if c == '\'' then "" else if c == '+' then "_plus" else [c]
  }

  /** The cleaned text character by character: apostrophes dropped, each '+'
      spelled "_plus", everything else kept. */
  function Cleaned(s: string): (r: string)
    ensures '\'' !in r && '+' !in r
  {
    if s == [] then [] else CleanChar(s[0]) + Cleaned(s[1..])
  }

  /** clean_name: a falsy name comes back as it is; a non-empty string loses its
      apostrophes and has each '+' spelled "_plus". .replace raises on a truthy
      name that is not a string. */
  function CleanName(name: Value): (r: Value)
    requires Truthy(name) ==> name.Str?
    ensures !Truthy(name) ==> r == name
    ensures Truthy(name) ==> r == Str(Cleaned(name.s))
  {
    if Truthy(name) then
      CleanedIsReplace(name.s);
      Str(Replace(Replace(name.s, "'", ""), "+", "_plus"))
    else name
  }

  /** The two replace calls, in their order, clean character by character. */
  lemma {:induction false} CleanedIsReplace(s: string)
    ensures Replace(Replace(s, "'", ""), "+", "_plus") == Cleaned(s)
    decreases |s|
  {
    if s != [] {
      var h := if s[0] == '\'' then "" else [s[0]];
      var t := Replace(s[1..], "'", "");
      ReplaceCharCons(s, '\'', "");
      ReplaceCharAppend(h, t, '+', "_plus");
      if h != [] {
        ReplaceCharCons(h, '+', "_plus");
        assert h[1..] == [];
      }
      CleanedIsReplace(s[1..]);
    }
  }

  /** A text with no apostrophe and no '+' is already clean. */
  lemma {:induction false} CleanedOfClean(s: string)
    requires '\'' !in s && '+' !in s
    ensures Cleaned(s) == s
    decreases |s|
  {
    if s != [] {
      CleanedOfClean(s[1..]);
      assert s == [s[0]] + s[1..];
    }
  }

  /** clean_name is idempotent. */
  lemma CleanNameIdempotent(name: Value)
    requires Truthy(name) ==> name.Str?
    ensures CleanName(CleanName(name)) == CleanName(name)
  {
    if Truthy(name) {
      CleanedOfClean(Cleaned(name.s));
    }
  }

  // ---------------------------------------------------------------- selection and order

  /** The two generators: generate_armor_code and generate_ring_code. */
  datatype Kind = Armor | Ring

  /** block.get("type") == "armor", or block.get("secondaryType") == "ring". */
  predicate Selected(kind: Kind, e: Entity)
  {
    match kind
    case Armor => Get(e, "type", Null) == Str("armor")
    case Ring => Get(e, "secondaryType", Null) == Str("ring")
  }

  function Picks(kind: Kind): Entity -> bool
  {
    e => Selected(kind, e)
  }

  /** The sort key: block.get("maxLevelArmor", 0). */
  function Level(e: Entity): Value
  {
    Get(e, "maxLevelArmor", Int(0))
  }

  function LevelKey(e: Entity): Key
  {
    KeyOrZero(Level(e))
  }

  function Levels(es: seq<Entity>): (r: seq<Value>)
    ensures |r| == |es| && forall i :: 0 <= i < |es| ==> r[i] == Level(es[i])
  {
    seq(|es|, i requires 0 <= i < |es| => Level(es[i]))
  }

  // ---------------------------------------------------------------- the walk

  /** The blocks a generator writes lines for, in line order. A list contributes
      its dict elements of the wanted kind, stably sorted by level; elements that
      are not dicts (nested lists included) are passed over and never searched.
      A dict contributes what its values contribute, in key order; a scalar
      contributes nothing. */
  function Walk(v: Value, kind: Kind): (r: seq<Entity>)
    ensures forall i :: 0 <= i < |r| ==> Selected(kind, r[i])
    decreases v, 1, 0
  {
    match v
    case List(items) =>
      FilterPasses(SortBy(DictsOf(items), LevelKey), Picks(kind));
      Filter(SortBy(DictsOf(items), LevelKey), Picks(kind))
    case Dict(keys, _) => WalkKeys(v, keys, kind)
    case _ => []
  }

  /** What the values under the keys ks of dict p contribute, in the order of ks. */
  function WalkKeys(p: Value, ks: seq<string>, kind: Kind): (r: seq<Entity>)
    requires p.Dict?
    ensures forall i :: 0 <= i < |r| ==> Selected(kind, r[i])
    decreases p, 0, |ks|
  {
    if ks == [] then []
    else
      var k := ks[|ks| - 1];
      WalkKeys(p, ks[..|ks| - 1], kind) + (if k in p.fields then Walk(p.fields[k], kind) else [])
  }

  /** The search visits keys in order: the keys a + b give a's blocks, then b's. */
  lemma {:induction false} WalkKeysAppend(p: Value, a: seq<string>, b: seq<string>, kind: Kind)
    requires p.Dict?
    ensures WalkKeys(p, a + b, kind) == WalkKeys(p, a, kind) + WalkKeys(p, b, kind)
    decreases |b|
  {
    if b == [] {
      assert a + b == a;
    } else {
      var init := b[..|b| - 1];
      WalkKeysAppend(p, a, init, kind);
      assert (a + b)[..|a + b| - 1] == a + init;
      assert (a + b)[|a + b| - 1] == b[|b| - 1];
    }
  }

  /** Every dict element of every list the search reaches, unsorted and unselected. */
  function Candidates(v: Value): seq<Entity>
    decreases v, 1, 0
  {
    match v
    case List(items) => DictsOf(items)
    case Dict(keys, _) => CandidatesKeys(v, keys)
    case _ => []
  }

  function CandidatesKeys(p: Value, ks: seq<string>): seq<Entity>
    requires p.Dict?
    decreases p, 0, |ks|
  {
    if ks == [] then []
    else
      var k := ks[|ks| - 1];
      CandidatesKeys(p, ks[..|ks| - 1]) + (if k in p.fields then Candidates(p.fields[k]) else [])
  }

  /** The generator writes one line for each reachable dict of the wanted kind,
      and for nothing else: the blocks it renders are those dicts, reordered. */
  lemma {:induction false} WalkCandidates(v: Value, kind: Kind)
    ensures multiset(Walk(v, kind)) == multiset(Filter(Candidates(v), Picks(kind)))
    decreases v, 1, 0
  {
    match v
    case List(items) =>
      var ds := DictsOf(items);
      SortByPermutation(ds, LevelKey);
      FilterPermutation(SortBy(ds, LevelKey), ds, Picks(kind));
    case Dict(keys, _) =>
      WalkKeysCandidates(v, keys, kind);
    case _ =>
  }

  lemma {:induction false} WalkKeysCandidates(p: Value, ks: seq<string>, kind: Kind)
    requires p.Dict?
    ensures multiset(WalkKeys(p, ks, kind)) == multiset(Filter(CandidatesKeys(p, ks), Picks(kind)))
    decreases p, 0, |ks|
  {
    if ks != [] {
      var k := ks[|ks| - 1];
      WalkKeysCandidates(p, ks[..|ks| - 1], kind);
      var below := if k in p.fields then Candidates(p.fields[k]) else [];
      if k in p.fields {
        WalkCandidates(p.fields[k], kind);
      }
      FilterAppend(CandidatesKeys(p, ks[..|ks| - 1]), below, Picks(kind));
    }
  }

  /** Hence the number of lines is the number of reachable dicts of the wanted kind. */
  lemma WalkCount(v: Value, kind: Kind)
    ensures |Walk(v, kind)| == |Filter(Candidates(v), Picks(kind))|
  {
    WalkCandidates(v, kind);
    assert |multiset(Walk(v, kind))| == |multiset(Filter(Candidates(v), Picks(kind)))|;
  }

  /** Within one list the blocks come out in ascending level order, and they are
      exactly the list's dicts of the wanted kind. */
  lemma ListWalk(items: seq<Value>, kind: Kind)
    ensures SortedBy(Walk(List(items), kind), LevelKey)
    ensures multiset(Walk(List(items), kind)) == multiset(Filter(DictsOf(items), Picks(kind)))
  {
    var ds := DictsOf(items);
    SortBySorted(ds, LevelKey);
    FilterSorted(SortBy(ds, LevelKey), LevelKey, Picks(kind));
    WalkCandidates(List(items), kind);
  }

  /** Lists and dicts directly inside a list are not searched: a dict element is
      taken or dropped whole, and a nested list gives nothing. */
  lemma ListDoesNotDescend(d: Value, xs: seq<Value>, kind: Kind)
    requires d.Dict?
    ensures Walk(List([d]), kind) == if Selected(kind, d.fields) then [d.fields] else []
    ensures Walk(List([List(xs)]), kind) == []
  {
    assert [d][..0] == [] && [List(xs)][..0] == [];
    assert DictsOf([d]) == [d.fields];
    assert DictsOf([List(xs)]) == [];
    assert SortBy([d.fields], LevelKey) == [d.fields];
    assert [d.fields][..0] == [];
  }

  // ---------------------------------------------------------------- readiness

  /** A block the generator renders without raising: name and element are strings
      where present (.replace and .upper), and every boost is a number. */
  predicate Ready(e: Entity)
  {
    && StrField(e, "name") && StrField(e, "element")
    && ArmorRingParser.BoostsReady(e, ArmorRingParser.ArmorBoostKeys)
  }

  /** A list the generator gets through: sorted() can compare the levels of its
      dicts, and each dict it renders is ready. */
  predicate ListReady(items: seq<Value>, kind: Kind)
  {
    var ds := DictsOf(items);
    && Orderable(Levels(ds))
    && SelectedReady(ds, kind)
  }

  /** Every list the search reaches is ready. */
  predicate TreeReady(v: Value, kind: Kind)
    decreases v, 1, 0
  {
    match v
    case List(items) => ListReady(items, kind)
    case Dict(keys, fields) => KeysReady(v, keys, kind)
    case _ => true
  }

  predicate KeysReady(p: Value, ks: seq<string>, kind: Kind)
    requires p.Dict?
    decreases p, 0, |ks|
  {
    ks != [] ==>
      && KeysReady(p, ks[..|ks| - 1], kind)
      && (ks[|ks| - 1] in p.fields ==> TreeReady(p.fields[ks[|ks| - 1]], kind))
  }

  /** Readiness of keys a + b is readiness of a and of b. */
  lemma {:induction false} KeysReadyAppend(p: Value, a: seq<string>, b: seq<string>, kind: Kind)
    requires p.Dict?
    ensures KeysReady(p, a + b, kind) <==> KeysReady(p, a, kind) && KeysReady(p, b, kind)
    decreases |b|
  {
    if b == [] {
      assert a + b == a;
    } else {
      var init := b[..|b| - 1];
      KeysReadyAppend(p, a, init, kind);
      assert (a + b)[..|a + b| - 1] == a + init;
      assert (a + b)[|a + b| - 1] == b[|b| - 1];
    }
  }

  /** Every block the search finds in a ready tree can be rendered. */
  lemma {:induction false} WalkReady(v: Value, kind: Kind)
    requires TreeReady(v, kind)
    ensures AllReady(Walk(v, kind))
    decreases v, 1, 0
  {
    match v
    case List(items) =>
      var ds := DictsOf(items);
      var sorted := SortBy(ds, LevelKey);
      var r := Filter(sorted, Picks(kind));
      forall i | 0 <= i < |r| ensures Ready(r[i]) {
        FilterMember(sorted, Picks(kind), r[i]);
        SortByPermutation(ds, LevelKey);
        assert r[i] in multiset(ds);
        var j :| 0 <= j < |ds| && ds[j] == r[i];
      }
    case Dict(keys, _) =>
      WalkKeysReady(v, keys, kind);
    case _ =>
  }

  lemma {:induction false} WalkKeysReady(p: Value, ks: seq<string>, kind: Kind)
    requires p.Dict? && KeysReady(p, ks, kind)
    ensures AllReady(WalkKeys(p, ks, kind))
    decreases p, 0, |ks|
  {
    if ks != [] {
      var k := ks[|ks| - 1];
      WalkKeysReady(p, ks[..|ks| - 1], kind);
      if k in p.fields {
        WalkReady(p.fields[k], kind);
      }
    }
  }

  // ---------------------------------------------------------------- the lines

  /** The default names, lower case and underscores only. */
  function DefaultName(kind: Kind): string
  {
    match kind
    case Armor => ArmorRingParser.DefaultArmorName
    case Ring => ArmorRingParser.DefaultRingName
  }

  /** No blank and no capital: what .replace(" ", "_").lower() leaves. */
  predicate Spaceless(s: string)
  {
    ' ' !in s && forall i :: 0 <= i < |s| ==> !IsUpperChar(s[i])
  }

  /** block.get("name", default).replace(" ", "_").lower() */
  function ItemName(e: Entity, kind: Kind): (r: string)
    requires StrField(e, "name")
    ensures Spaceless(r)
    ensures "name" !in e ==> r == DefaultName(kind)
  {
    var raw := GetStrOr(e, "name", DefaultName(kind));
    SnakeSpaceless(raw);
    DefaultNameKept(kind);
    Lower(Replace(raw, " ", "_"))
  }

  lemma SnakeSpaceless(s: string)
    ensures Spaceless(Lower(Replace(s, " ", "_")))
  {
    var t := Replace(s, " ", "_");
    ReplaceCharRemoves(s, ' ', "_", ' ');
    LowerAbsent(t, ' ');
  }

  /** The default names come through the renaming unchanged. */
  lemma DefaultNameKept(kind: Kind)
    ensures Lower(Replace(DefaultName(kind), " ", "_")) == DefaultName(kind)
  {
    var s := DefaultName(kind);
    if kind == Armor {
      ArmorRingParser.DefaultArmorNameMangled();
    } else {
      ArmorRingParser.DefaultRingNameMangled();
    }
    ArmorRingParser.MangleClean(s);
    ReplaceAbsentChar(s, ' ', "_");
    LowerOfLower(s);
  }

  /** process_boost of the nine boosts, as text, in the order the line lists them. */
  function BoostTexts(e: Entity): (r: seq<string>)
    requires ArmorRingParser.BoostsReady(e, ArmorRingParser.ArmorBoostKeys)
    ensures |r| == |ArmorRingParser.ArmorBoostKeys|
  {
    var keys := ArmorRingParser.ArmorBoostKeys;
    seq(|keys|, i requires 0 <= i < |keys| => IntText(ProcessBoost(Get(e, keys[i], Int(1)))))
  }

  /** The fields both lines share after the element: armour, maximum armour,
      upgrades (each defaulting to 0) and the nine boosts. */
  function Stats(e: Entity): string
    requires Ready(e)
  {
    Show(Get(e, "armor", Int(0))) + ", " + Show(Level(e)) + ", " + Show(Get(e, "maxLevelAllowed", Int(0))) + ", "
      + Join(BoostTexts(e), ", ")
  }

  /** The Java line for one block. */
  function Line(e: Entity, kind: Kind): string
    requires Ready(e)
  {
    var name := ItemName(e, kind);
    var element := WeaponParser.Element(e);
    match kind
    case Armor =>
      "armorList.add(createArmor(R.string." + name + ", Elements." + element + ", "
        + ShowLower(Get(e, "frost", Bool(false))) + ", " + Stats(e) + ", R.drawable.armor_" + name + "));"
    case Ring =>
      "ringList.add(createRing(R.string." + name + ", Elements." + element + ", "
        + Stats(e) + ", R.drawable.ring_" + name + "));"
  }

  function LineOf(kind: Kind): Entity --> string
  {
    e requires Ready(e) => Line(e, kind)
  }

  /** One line per block, in order. */
  function Lines(es: seq<Entity>, kind: Kind): (r: seq<string>)
    requires AllReady(es)
    ensures |r| == |es| && forall i :: 0 <= i < |es| ==> r[i] == Line(es[i], kind)
  {
    MapEach(es, LineOf(kind))
  }

  /** The lines of a + b are a's lines, then b's. */
  lemma LinesAppend(a: seq<Entity>, b: seq<Entity>, kind: Kind)
    requires AllReady(a) && AllReady(b)
    ensures AllReady(a + b)
    ensures Lines(a + b, kind) == Lines(a, kind) + Lines(b, kind)
  {
    MapEachAppend(a, b, LineOf(kind));
  }

  lemma LinesOne(e: Entity, kind: Kind)
    requires Ready(e)
    ensures Lines([e], kind) == [Line(e, kind)]
  {
    MapEachOne(e, LineOf(kind));
  }

  // ---------------------------------------------------------------- the generators

  /** Every block of es can be rendered. */
  predicate AllReady(es: seq<Entity>)
  {
    forall i :: 0 <= i < |es| ==> Ready(es[i])
  }

  /** Every block of s that is of the wanted kind can be rendered. */
  predicate SelectedReady(s: seq<Entity>, kind: Kind)
  {
    forall i :: 0 <= i < |s| && Selected(kind, s[i]) ==> Ready(s[i])
  }

  /** The loop over a sorted list: a line for each block of the wanted kind. */
  method RenderSelected(sorted: seq<Entity>, kind: Kind) returns (lines: seq<string>)
    requires SelectedReady(sorted, kind)
    ensures AllReady(Filter(sorted, Picks(kind)))
    ensures lines == Lines(Filter(sorted, Picks(kind)), kind)
  {
    lines := [];
    var i := 0;
    while i < |sorted|
      invariant 0 <= i <= |sorted|
      invariant AllReady(Filter(sorted[..i], Picks(kind)))
      invariant lines == Lines(Filter(sorted[..i], Picks(kind)), kind)
    {
      lines := RenderStep(sorted, i, kind, lines);
      i := i + 1;
    }
    WholePrefix(sorted);
  }

  /** One turn of that loop. */
  method RenderStep(sorted: seq<Entity>, i: int, kind: Kind, lines: seq<string>) returns (next: seq<string>)
    requires 0 <= i < |sorted| && SelectedReady(sorted, kind)
    requires AllReady(Filter(sorted[..i], Picks(kind)))
    requires lines == Lines(Filter(sorted[..i], Picks(kind)), kind)
    ensures AllReady(Filter(sorted[..i + 1], Picks(kind)))
    ensures next == Lines(Filter(sorted[..i + 1], Picks(kind)), kind)
  {
    var done := Filter(sorted[..i], Picks(kind));
    FilterStep(sorted, i, Picks(kind));
    if Selected(kind, sorted[i]) {
      LinesAppend(done, [sorted[i]], kind);
      LinesOne(sorted[i], kind);
      next := lines + [Line(sorted[i], kind)];
    } else {
      assert done + [] == done;
      next := lines;
    }
  }

  /** generate_armor_code (kind Armor) and generate_ring_code (kind Ring): the
      lines of the blocks the search finds, in the order it finds them, so one
      line per reachable dict of the wanted kind. */
  method GenerateCode(data: Value, kind: Kind) returns (lines: seq<string>)
    requires WellFormed(data) && TreeReady(data, kind)
    ensures AllReady(Walk(data, kind))
    ensures lines == Lines(Walk(data, kind), kind)
    ensures |lines| == |Filter(Candidates(data), Picks(kind))|
    decreases data, 1
  {
    WalkReady(data, kind);
    WalkCount(data, kind);
    lines := [];
    if data.List? {
      var sorted := SortBy(DictsOf(data.items), LevelKey);
      SortedReady(data.items, kind);
      lines := RenderSelected(sorted, kind);
    } else if data.Dict? {
      var i := 0;
      while i < |data.keys|
        invariant 0 <= i <= |data.keys|
        invariant AllReady(WalkKeys(data, data.keys[..i], kind))
        invariant lines == Lines(WalkKeys(data, data.keys[..i], kind), kind)
      {
        lines := KeyStep(data, i, kind, lines);
        i := i + 1;
      }
      assert data.keys[..i] == data.keys;
    }
  }

  /** One turn of the loop over a dict's keys: a list or dict value is searched
      and its lines appended; any other value is skipped. */
  method KeyStep(data: Value, i: int, kind: Kind, lines: seq<string>) returns (next: seq<string>)
    requires data.Dict? && 0 <= i < |data.keys| && WellFormed(data) && TreeReady(data, kind)
    requires AllReady(WalkKeys(data, data.keys[..i], kind))
    requires lines == Lines(WalkKeys(data, data.keys[..i], kind), kind)
    ensures AllReady(WalkKeys(data, data.keys[..i + 1], kind))
    ensures next == Lines(WalkKeys(data, data.keys[..i + 1], kind), kind)
    decreases data, 0
  {
    var k := data.keys[i];
    assert data.keys[..i + 1][..i] == data.keys[..i];
    assert data.keys[..i + 1] + data.keys[i + 1..] == data.keys;
    KeysReadyAppend(data, data.keys[..i + 1], data.keys[i + 1..], kind);
    WalkKeysReady(data, data.keys[..i + 1], kind);
    if k in data.fields && (data.fields[k].List? || data.fields[k].Dict?) {
      var sub := GenerateCode(data.fields[k], kind);
      LinesAppend(WalkKeys(data, data.keys[..i], kind), Walk(data.fields[k], kind), kind);
      next := lines + sub;
    } else {
      assert WalkKeys(data, data.keys[..i + 1], kind) == WalkKeys(data, data.keys[..i], kind) + [];
      next := lines;
    }
  }

  /** The dicts of a ready list, once sorted, are ready wherever they are selected. */
  lemma SortedReady(items: seq<Value>, kind: Kind)
    requires ListReady(items, kind)
    ensures SelectedReady(SortBy(DictsOf(items), LevelKey), kind)
  {
    var ds := DictsOf(items);
    var sorted := SortBy(ds, LevelKey);
    forall i | 0 <= i < |sorted| && Selected(kind, sorted[i]) ensures Ready(sorted[i]) {
      SortByElements(ds, LevelKey, i);
      var j :| 0 <= j < |ds| && ds[j] == sorted[i];
    }
  }

  // ---------------------------------------------------------------- the sort as written

  /** The list sort as written: the key function calls .get on every element
      before the isinstance check runs, so an element that is not a dict raises
      AttributeError (None here). */
  function SortAsWritten(items: seq<Value>): Option<seq<Entity>>
  {
    if exists i :: 0 <= i < |items| && !items[i].Dict? then None
    else Some(SortBy(DictsOf(items), LevelKey))
  }

  /** A feed dict with a list of strings under some key ({"tags": ["x"]}): the
      search reaches that list and the code as written raises on it, where the
      isinstance check shows that such elements were meant to be passed over,
      leaving no line. */
  lemma StringListRaises(kind: Kind)
    ensures SortAsWritten([Str("x")]) == None
    ensures Walk(Dict(["tags"], map["tags" := List([Str("x")])]), kind) == []
  {
    assert ![Str("x")][0].Dict?;
    var d := Dict(["tags"], map["tags" := List([Str("x")])]);
    assert ["tags"][..0] == [];
    assert [Str("x")][..0] == [];
    assert DictsOf([Str("x")]) == [];
    assert Walk(List([Str("x")]), kind) == [];
    assert WalkKeys(d, ["tags"], kind) == [] + Walk(List([Str("x")]), kind);
  }

  /** On a list of dicts only, the sort as written and the walk agree. */
  lemma SortAsWrittenAgrees(items: seq<Value>, kind: Kind)
    requires forall i :: 0 <= i < |items| ==> items[i].Dict?
    ensures SortAsWritten(items).Some?
    ensures Walk(List(items), kind) == Filter(SortAsWritten(items).value, Picks(kind))
  {
  }
}
