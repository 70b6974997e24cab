/** weapon_parser.py: one Java constructor line per weapon dict of the item feed,
    after the shared fields are extracted and the weapons sorted by maximum damage.
    Its process_boost is the one of armor_ring_parser.py (`value in (0, 1)` is
    the same two equality tests), and so is the name mangling. */
module WeaponParser {
  import opened Text
  import opened Values
  import opened Sorting
  import ArmorRingParser

  /** The dict extract_common_fields returns, one field per key; the six price
      keys are kept together, in the order of ArmorRingParser.PriceKeys. */
  datatype Weapon = Weapon(
    name: string,
    weaponType: string,
    element: string,
    minDamage: Value,
    maxDamage: Value,
    upgrades: Value,
    armorBonus: int,
    speed: int,
    jump: int,
    attackCooldown: Value,
    pierceCount: Value,
    enablePierceAreaDamage: Value,
    persistAgainstProjectile: Value,
    poisonous: Value,
    frost: Value,
    prices: seq<Value>)

  // ---------------------------------------------------------------- extract_common_fields

  /** block.get("element", "NEUTRAL").upper() or "NEUTRAL" */
  function Element(block: Entity): (r: string)
    requires StrField(block, "element")
    ensures r != []
    ensures forall i :: 0 <= i < |r| ==> !IsLowerChar(r[i])
    ensures "element" in block && block["element"].s != [] ==> r == Upper(block["element"].s)
  {
    var up := Upper(GetStrOr(block, "element", "NEUTRAL"));
    if up != [] then up else "NEUTRAL"
  }

  /** The first truthy one of maxLevelDamage, maxleveldamage and max_damage,
      else damage (default 0). */
  function MaxDamage(block: Entity): (r: Value)
    ensures Truthy(Get(block, "maxLevelDamage", Null)) ==> r == block["maxLevelDamage"]
    ensures (!Truthy(Get(block, "maxLevelDamage", Null)) && Truthy(Get(block, "maxleveldamage", Null)))
      ==> r == block["maxleveldamage"]
    ensures (!Truthy(Get(block, "maxLevelDamage", Null)) && !Truthy(Get(block, "maxleveldamage", Null))
             && Truthy(Get(block, "max_damage", Null)))
      ==> r == block["max_damage"]
    ensures (!Truthy(Get(block, "maxLevelDamage", Null)) && !Truthy(Get(block, "maxleveldamage", Null))
             && !Truthy(Get(block, "max_damage", Null)))
      ==> r == Get(block, "damage", Int(0))
  {
    Or(Get(block, "maxLevelDamage", Null),
       Or(Get(block, "maxleveldamage", Null),
          Or(Get(block, "max_damage", Null), Get(block, "damage", Int(0)))))
  }

  /** The maximum damage is falsy (0, None, ...) only when all four fields are:
      a zero maximum falls through to the next field. */
  lemma MaxDamageTruthy(block: Entity)
    ensures Truthy(MaxDamage(block)) <==>
      Truthy(Get(block, "maxLevelDamage", Null)) || Truthy(Get(block, "maxleveldamage", Null))
      || Truthy(Get(block, "max_damage", Null)) || Truthy(Get(block, "damage", Int(0)))
  {
  }

  /** maxLevelAllowed or 1 */
  function Upgrades(block: Entity): (r: Value)
    ensures Truthy(r)
    ensures "maxLevelAllowed" in block && Truthy(block["maxLevelAllowed"]) ==> r == block["maxLevelAllowed"]
  {
    Or(Get(block, "maxLevelAllowed", Int(0)), Int(1))
  }

  /** A block extract_common_fields reads without raising: name and element are
      strings where present, and the three boosts are numbers. */
  predicate Ready(block: Entity)
  {
    && StrField(block, "name") && StrField(block, "element")
    && IsNumber(Get(block, "armorBoost", Int(1)))
    && IsNumber(Get(block, "speedBoost", Int(1)))
    && IsNumber(Get(block, "jumpBoost", Int(1)))
  }

  /** The six prices as read, each defaulting to 0 when absent; unlike the armour
      and ring lines, an explicit null stays None. */
  function RawPrices(block: Entity): (r: seq<Value>)
    ensures |r| == |ArmorRingParser.PriceKeys|
  {
    var keys := ArmorRingParser.PriceKeys;
    seq(|keys|, i requires 0 <= i < |keys| => Get(block, keys[i], Int(0)))
  }

  /** extract_common_fields */
  function ExtractCommonFields(block: Entity, defaultName: string, weaponType: string): (w: Weapon)
    requires Ready(block)
    ensures w.weaponType == weaponType
    ensures ArmorRingParser.Mangled(w.name)
    ensures "name" !in block ==> w.name == ArmorRingParser.Mangle(defaultName)
    ensures w.element != []
    ensures w.maxDamage == MaxDamage(block) && Truthy(w.upgrades)
    ensures |w.prices| == 6
    ensures forall i :: 0 <= i < 6 ==> w.prices[i] == Get(block, ArmorRingParser.PriceKeys[i], Int(0))
  {
    Weapon(
      ArmorRingParser.ItemName(block, defaultName),
      weaponType,
      Element(block),
      Get(block, "damage", Int(0)),
      MaxDamage(block),
      Upgrades(block),
      ArmorRingParser.ProcessBoost(Get(block, "armorBoost", Int(1))),
      ArmorRingParser.ProcessBoost(Get(block, "speedBoost", Int(1))),
      ArmorRingParser.ProcessBoost(Get(block, "jumpBoost", Int(1))),
      Get(block, "attackCooldown", Int(0)),
      Get(block, "pierceCount", Int(0)),
      Get(block, "enablePierceAreaDamage", Bool(false)),
      Get(block, "persistAgainstProjectile", Bool(false)),
      Get(block, "poisonous", Bool(false)),
      Get(block, "frost", Bool(false)),
      RawPrices(block))
  }

  // ---------------------------------------------------------------- sort_by_max_damage

  function DamageKey(w: Weapon): Key
  {
    KeyOrZero(w.maxDamage)
  }

  function Damages(ws: seq<Weapon>): (r: seq<Value>)
    ensures |r| == |ws| && forall i :: 0 <= i < |ws| ==> r[i] == ws[i].maxDamage
  {
    seq(|ws|, i requires 0 <= i < |ws| => ws[i].maxDamage)
  }

  /** sort_by_max_damage: ascending and stable; sorted() raises TypeError unless
      the maximum damages are all numbers or all strings. */
  function SortByMaxDamage(ws: seq<Weapon>): (r: seq<Weapon>)
    requires Orderable(Damages(ws))
    ensures SortedBy(r, DamageKey)
    ensures multiset(r) == multiset(ws)
    ensures forall k :: Select(r, DamageKey, k) == Select(ws, DamageKey, k)
    ensures |r| == |ws|
  {
    SortBySpec(ws, DamageKey);
    SortBy(ws, DamageKey)
  }

  // ---------------------------------------------------------------- generate_weapon_code

  /** Every dict element of the list can be extracted. */
  predicate ItemsReady(items: seq<Value>)
  {
    forall i :: 0 <= i < |items| && items[i].Dict? ==> Ready(items[i].fields)
  }

  /** The weapons the first loop collects: one per dict element, in list order. */
  function Extracted(items: seq<Value>, defaultName: string, weaponType: string): (r: seq<Weapon>)
    requires ItemsReady(items)
  {
    if items == [] then []
    else
      var last := items[|items| - 1];
      Extracted(items[..|items| - 1], defaultName, weaponType)
        + (if last.Dict? then [ExtractCommonFields(last.fields, defaultName, weaponType)] else [])
  }

  /** The first loop extracts exactly the dict elements, in order. */
  lemma {:induction false} ExtractedDicts(items: seq<Value>, defaultName: string, weaponType: string)
    requires ItemsReady(items)
    ensures forall e :: e in DictsOf(items) ==> Ready(e)
    ensures var ws := Extracted(items, defaultName, weaponType);
      |ws| == |DictsOf(items)|
      && forall j :: 0 <= j < |ws| ==> ws[j] == ExtractCommonFields(DictsOf(items)[j], defaultName, weaponType)
  {
    forall e | e in DictsOf(items) ensures Ready(e) {
      DictsOfMembers(items, e);
    }
    if items != [] {
      ExtractedDicts(items[..|items| - 1], defaultName, weaponType);
    }
  }

  /** The line for one extracted weapon. */
  function WeaponLine(w: Weapon, listName: string, drawablePrefix: string): string
  {
    listName + ".add(new Weapon(str(context, R.string." + w.name + "), WeaponTypes." + w.weaponType
      + ", Elements." + w.element + ", " + Show(w.minDamage) + ", " + Show(w.maxDamage) + ", "
      + Show(w.upgrades) + ", " + IntText(w.armorBonus) + ", " + IntText(w.speed) + ", "
      + IntText(w.jump) + ", R.drawable." + drawablePrefix + "_" + w.name + ", "
      + Show(w.attackCooldown) + ", " + Show(w.pierceCount) + ", "
      + ShowLower(w.enablePierceAreaDamage) + ", " + ShowLower(w.persistAgainstProjectile) + ", "
      + ShowLower(w.poisonous) + ", " + ShowLower(w.frost) + ", "
      + Join(ArmorRingParser.ShowAll(w.prices), ", ") + "));"
  }

  function WeaponLines(ws: seq<Weapon>, listName: string, drawablePrefix: string): (r: seq<string>)
    ensures |r| == |ws| && forall i :: 0 <= i < |ws| ==> r[i] == WeaponLine(ws[i], listName, drawablePrefix)
  {
    seq(|ws|, i requires 0 <= i < |ws| => WeaponLine(ws[i], listName, drawablePrefix))
  }

  /** The list the generator reads: the data when it is a list, else nothing. */
  function ItemsOf(data: Value): seq<Value>
  {
    if data.List? then data.items else []
  }

  /** The first loop of generate_weapon_code: extract every dict element. */
  method CollectWeapons(data: Value, defaultName: string, weaponType: string) returns (weapons: seq<Weapon>)
    requires ItemsReady(ItemsOf(data))
    ensures weapons == Extracted(ItemsOf(data), defaultName, weaponType)
  {
    var items := ItemsOf(data);
    weapons := [];
    var i := 0;
    while i < |items|
      invariant 0 <= i <= |items|
      invariant weapons == Extracted(items[..i], defaultName, weaponType)
    {
      assert items[..i + 1][..i] == items[..i];
      if items[i].Dict? {
        weapons := weapons + [ExtractCommonFields(items[i].fields, defaultName, weaponType)];
      }
      i := i + 1;
    }
    WholePrefix(items);
  }

  /** generate_weapon_code: the dict elements extracted, sorted by maximum damage
      (ascending, stable), and rendered one line each; no lines for anything but a
      list. Every dict yields a line, whatever its type field. */
  method GenerateWeaponCode(data: Value, weaponType: string, listName: string, drawablePrefix: string,
                            defaultName: string) returns (lines: seq<string>)
    requires ItemsReady(ItemsOf(data))
    requires Orderable(Damages(Extracted(ItemsOf(data), defaultName, weaponType)))
    ensures lines == WeaponLines(SortByMaxDamage(Extracted(ItemsOf(data), defaultName, weaponType)),
                                 listName, drawablePrefix)
    ensures |lines| == |DictsOf(ItemsOf(data))|
  {
    var weapons := CollectWeapons(data, defaultName, weaponType);
    ExtractedDicts(ItemsOf(data), defaultName, weaponType);
    var sorted := SortByMaxDamage(weapons);
    lines := RenderWeapons(sorted, listName, drawablePrefix);
  }

  /** The second loop of generate_weapon_code: one line per weapon, in order. */
  method RenderWeapons(ws: seq<Weapon>, listName: string, drawablePrefix: string) returns (lines: seq<string>)
    ensures lines == WeaponLines(ws, listName, drawablePrefix)
  {
    ghost var want := WeaponLines(ws, listName, drawablePrefix);
    lines := [];
    var i := 0;
    while i < |ws|
      invariant 0 <= i <= |ws|
      invariant lines == want[..i]
    {
      PrefixStep(want, i);
      lines := lines + [WeaponLine(ws[i], listName, drawablePrefix)];
      i := i + 1;
    }
    WholePrefix(want);
  }

  // ---------------------------------------------------------------- the shortcuts

  datatype Category = Sword | Hammer | Spear | Staff | Dagger | Axe

  /** The bucket name each shortcut is built on. */
  function Bucket(c: Category): (r: string)
    ensures r in WeaponTypes
  {
    match c
    case Sword => "sword"
    case Hammer => "hammer"
    case Spear => "spear"
    case Staff => "staff"
    case Dagger => "dagger"
    case Axe => "axe"
  }

  /** The arguments each generate_<category>_code passes: weapon type, list name,
      drawable prefix and default name, all spelled from the bucket name. */
  function ShortcutArgs(c: Category): (string, string, string, string)
  {
    var b := Bucket(c);
    (Upper(b), b + "List", b, "test_" + b)
  }

  /** generate_axe_code's literal arguments follow the pattern. */
  lemma AxeShortcut()
    ensures ShortcutArgs(Axe) == ("AXE", "axeList", "axe", "test_axe")
  {
    UpperOf("axe", "AXE");
    assert "axe" + "List" == "axeList";
    assert "test_" + "axe" == "test_axe";
  }

  lemma UpperOf(s: string, t: string)
    requires |s| == |t| && forall i :: 0 <= i < |s| ==> UpperChar(s[i]) == t[i]
    ensures Upper(s) == t
  {
  }

  /** generate_sword_code, ..., generate_axe_code */
  method GenerateCategoryCode(data: Value, c: Category) returns (lines: seq<string>)
    requires ItemsReady(ItemsOf(data))
    requires Orderable(Damages(Extracted(ItemsOf(data), ShortcutArgs(c).3, ShortcutArgs(c).0)))
    ensures var (weaponType, listName, prefix, defaultName) := ShortcutArgs(c);
      lines == WeaponLines(SortByMaxDamage(Extracted(ItemsOf(data), defaultName, weaponType)), listName, prefix)
    ensures |lines| == |DictsOf(ItemsOf(data))|
  {
    var (weaponType, listName, prefix, defaultName) := ShortcutArgs(c);
    lines := GenerateWeaponCode(data, weaponType, listName, prefix, defaultName);
  }
}
