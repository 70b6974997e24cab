/** filter_util.py: DataFilter.filter_parsed_data drops placeholder items from
    every list of local_data, in place: names ending in " B", non-equipment
    secondary types, and the dummy sprites of each item type. */
module FilterUtil {
  import opened Text
  import opened Values

  /** The secondary types that are not equipment. */
  const ExcludedSecondary: set<string> := {"essence", "rune", "key", "arcane-rune"}

  function RawName(item: Entity): string
    requires StrField(item, "name")
  {
    Strip(GetStr(item, "name"))
  }

  function Secondary(item: Entity): string
    requires StrField(item, "secondaryType")
  {
    Lower(Strip(GetStr(item, "secondaryType")))
  }

  function Sprite(item: Entity): string
    requires StrField(item, "sprite")
  {
    Lower(Strip(GetStr(item, "sprite")))
  }

  /** The placeholder sprites of each item type; other types have none. */
  predicate DummySprite(itemType: string, sprite: string)
  {
    if itemType == "armor" then sprite == "armor_dummy.png"
    else if itemType in WeaponTypes then sprite == "sword_dummy.png" || sprite == "question_mark_entity.png"
    else if itemType == "ring" then sprite == "question_mark_entity.png" || sprite == "ring_dummy.png"
    else false
  }

  /** The item passes through the checks without raising: each field the checks
      reach before deciding is a string or absent. */
  predicate FilterReady(item: Entity)
  {
    && StrField(item, "name")
    && (EndsWith(RawName(item), " B")
        || (&& StrField(item, "secondaryType")
            && (Secondary(item) in ExcludedSecondary || StrField(item, "sprite"))))
  }

  predicate AllFilterReady(items: seq<Entity>)
  {
    forall i :: 0 <= i < |items| ==> FilterReady(items[i])
  }

  /** The item is dropped from the list of the given type. */
  predicate Excluded(itemType: string, item: Entity)
    requires FilterReady(item)
  {
    || EndsWith(RawName(item), " B")
    || Secondary(item) in ExcludedSecondary
    || DummySprite(itemType, Sprite(item))
  }

  /** The item stays in the list of the given type. */
  predicate Passes(itemType: string, item: Entity)
  {
    FilterReady(item) && !Excluded(itemType, item)
  }

  /** The list filtered_items ends up as: the items not excluded, in order. */
  function Kept(itemType: string, items: seq<Entity>): (r: seq<Entity>)
    ensures |r| <= |items|
  {
    Filter(items, x => Passes(itemType, x))
  }

  /** The checks of one item, in the order the loop body makes them. */
  method Keeps(itemType: string, item: Entity) returns (keep: bool)
    requires FilterReady(item)
    ensures keep == Passes(itemType, item)
  {
    var rawName := Strip(GetStr(item, "name"));
    if EndsWith(rawName, " B") {
      return false;
    }
    var secondary := Lower(Strip(GetStr(item, "secondaryType")));
    if secondary in ExcludedSecondary {
      return false;
    }
    var spriteVal := Lower(Strip(GetStr(item, "sprite")));
    var dummy := IsDummySprite(itemType, spriteVal);
    return !dummy;
  }

  /** The sprite rule of the loop body: the placeholder sprites of the item type. */
  method IsDummySprite(itemType: string, spriteVal: string) returns (dummy: bool)
    ensures dummy == DummySprite(itemType, spriteVal)
  {
    dummy := false;
    if itemType == "armor" {
      if spriteVal == "armor_dummy.png" {
        dummy := true;
      }
    } else if itemType in WeaponTypes {
      if spriteVal == "sword_dummy.png" || spriteVal == "question_mark_entity.png" {
        dummy := true;
      }
    } else if itemType == "ring" {
      if spriteVal in ["question_mark_entity.png", "ring_dummy.png"] {
        dummy := true;
      }
    }
  }

  /** The inner loop: filtered_items for one type. */
  method FilterItems(itemType: string, items: seq<Entity>) returns (filtered: seq<Entity>)
    requires AllFilterReady(items)
    ensures filtered == Kept(itemType, items)
  {
    filtered := [];
    var i := 0;
    while i < |items|
      invariant 0 <= i <= |items|
      invariant filtered == Kept(itemType, items[..i])
    {
      FilterStep(items, i, x => Passes(itemType, x));
      var keep := Keeps(itemType, items[i]);
      if keep {
        filtered := filtered + [items[i]];
      }
      i := i + 1;
    }
    WholePrefix(items);
  }

  predicate DataReady(byType: map<string, seq<Entity>>)
  {
    forall t :: t in byType ==> AllFilterReady(byType[t])
  }

  /** filter_parsed_data: every list of local_data is replaced by its filtered
      list; the type keys stay, and the same object is returned. */
  method FilterParsedData(localData: LocalData) returns (r: LocalData)
    requires DataReady(localData.byType)
    modifies localData
    ensures r == localData
    ensures localData.byType.Keys == old(localData.byType).Keys
    ensures forall t :: t in localData.byType ==> localData.byType[t] == Kept(t, old(localData.byType)[t])
  {
    ghost var before := localData.byType;
    var todo := localData.byType.Keys;
    while todo != {}
      invariant todo <= before.Keys
      invariant localData.byType.Keys == before.Keys
      invariant forall t :: t in before && t !in todo ==> localData.byType[t] == Kept(t, before[t])
      invariant forall t :: t in todo ==> localData.byType[t] == before[t]
      decreases todo
    {
      var itemType :| itemType in todo;
      var filtered := FilterItems(itemType, localData.byType[itemType]);
      localData.byType := localData.byType[itemType := filtered];
      todo := todo - {itemType};
    }
    return localData;
  }

  // ---------------------------------------------------------------- properties

  /** Exactly the items that pass are kept, in their order, unmodified, and
      filtering again changes nothing. */
  lemma KeptExactly(itemType: string, items: seq<Entity>)
    ensures forall k :: 0 <= k < |Kept(itemType, items)| ==> Passes(itemType, Kept(itemType, items)[k])
    ensures forall i :: 0 <= i < |items| && Passes(itemType, items[i]) ==> items[i] in Kept(itemType, items)
    ensures IsSubsequence(Kept(itemType, items), items)
    ensures Kept(itemType, Kept(itemType, items)) == Kept(itemType, items)
  {
    var keep := x => Passes(itemType, x);
    FilterPasses(items, keep);
    forall i | 0 <= i < |items| && Passes(itemType, items[i]) ensures items[i] in Kept(itemType, items) {
      FilterComplete(items, keep, i);
    }
    FilterSubsequence(items, keep);
    FilterIdempotent(items, keep);
  }

  /** A name ending in " B" is dropped whatever the type. */
  lemma BItemsDropped(itemType: string, name: string)
    requires EndsWith(Strip(name), " B")
    ensures !Passes(itemType, map["name" := Str(name)])
  {
  }

  /** An item is dropped for its secondary type alone when that is, trimmed and
      lower-cased, one of the non-equipment types. */
  lemma SecondaryDropped(itemType: string, item: Entity)
    requires StrField(item, "name") && StrField(item, "secondaryType")
    requires Secondary(item) in ExcludedSecondary
    ensures !Passes(itemType, item)
  {
  }

  /** A type without sprite rules keeps every item whose name and secondary type
      pass. */
  lemma NoSpriteRule(itemType: string, item: Entity)
    requires itemType != "armor" && itemType != "ring" && itemType !in WeaponTypes
    requires FilterReady(item)
    requires !EndsWith(RawName(item), " B") && Secondary(item) !in ExcludedSecondary
    ensures Passes(itemType, item)
  {
  }
}
