/** online_data.py: the item feed is indexed by normalised name, one field per
    item type is copied from the feed into matching local items in place, and
    the feed alone can be sorted into the eight local buckets. */
module OnlineData {
  import opened Text
  import opened Values

  /** item.get(k, "").strip().lower() for a string or absent field. The scripts
      raise on any other value; every operation below requires the fields it
      reads to be strings or absent, so the "" of that case is never used. */
  function Normal(item: Entity, k: string): string
  {
    if StrField(item, k) then Lower(Strip(GetStr(item, k))) else ""
  }

  predicate NamesReady(items: seq<Entity>)
  {
    forall i :: 0 <= i < |items| ==> StrField(items[i], "name")
  }

  // ---------------------------------------------------------------- index_online_data

  /** The dict `index[key(x)] = x` builds for each x of s with a non-empty key. */
  function IndexBy<T>(s: seq<T>, key: T -> string): map<string, T>
  {
    if s == [] then map[]
    else
      var index := IndexBy(s[..|s| - 1], key);
      var last := s[|s| - 1];
      if key(last) != "" then index[key(last) := last] else index
  }

  function NameKey(): Entity -> string
  {
    item => Normal(item, "name")
  }

  /** online_index: the feed by trimmed, lower-cased name. */
  function Index(online: seq<Entity>): map<string, Entity>
  {
    IndexBy(online, NameKey())
  }

  /** index_online_data */
  method IndexOnlineData(online: seq<Entity>) returns (index: map<string, Entity>)
    requires NamesReady(online)
    ensures index == Index(online)
  {
    index := map[];
    var i := 0;
    while i < |online|
      invariant 0 <= i <= |online|
      invariant index == IndexBy(online[..i], NameKey())
    {
      PrefixStep(online, i);
      var key := Lower(Strip(GetStr(online[i], "name")));
      if key != "" {
        index := index[key := online[i]];
      }
      i := i + 1;
    }
    WholePrefix(online);
  }

  /** A key is indexed exactly when it is the non-empty key of some item, and the
      item it holds has that key. */
  lemma {:induction false} IndexKeys<T>(s: seq<T>, key: T -> string, k: string)
    ensures k in IndexBy(s, key) <==> k != "" && exists i :: 0 <= i < |s| && key(s[i]) == k
    ensures k in IndexBy(s, key) ==> key(IndexBy(s, key)[k]) == k
  {
    if s != [] {
      var init := s[..|s| - 1];
      IndexKeys(init, key, k);
      if exists i :: 0 <= i < |init| && key(init[i]) == k {
        var i :| 0 <= i < |init| && key(init[i]) == k;
        assert key(s[i]) == k;
      }
    }
  }

  /** When names collide, the later item wins. */
  lemma {:induction false} IndexLastWins<T>(s: seq<T>, key: T -> string, i: int)
    requires 0 <= i < |s| && key(s[i]) != ""
    requires forall j :: i < j < |s| ==> key(s[j]) != key(s[i])
    ensures key(s[i]) in IndexBy(s, key) && IndexBy(s, key)[key(s[i])] == s[i]
  {
    if i < |s| - 1 {
      IndexLastWins(s[..|s| - 1], key, i);
    }
  }

  // ---------------------------------------------------------------- merge_online_fields

  /** The one field the merge copies into items of a type, if any. */
  function MergedField(itemType: string): Option<string>
  {
    if itemType == "armor" then Some("maxLevelArmor")
    else if itemType in WeaponTypes then Some("maxLevelDamage")
    else None
  }

  /** item[f] = onlineItem[f] when the feed item has f. */
  function CopyField(item: Entity, onlineItem: Entity, f: string): Entity
  {
    if f in onlineItem then item[f := onlineItem[f]] else item
  }

  /** One local item after the merge: when its trimmed, lower-cased name is in
      the index, the field of its type is copied from the feed item. */
  function MergeItem(itemType: string, item: Entity, index: map<string, Entity>): Entity
  {
    var localName := Normal(item, "name");
    if localName in index then
      match MergedField(itemType)
      case Some(f) => CopyField(item, index[localName], f)
      case None => item
    else item
  }

  /** The inner loop: each item of one list, merged where it stands. */
  method MergeItems(itemType: string, items: seq<Entity>, index: map<string, Entity>)
    returns (merged: seq<Entity>)
    ensures |merged| == |items|
    ensures forall k :: 0 <= k < |items| ==> merged[k] == MergeItem(itemType, items[k], index)
  {
    merged := items;
    var i := 0;
    while i < |items|
      invariant 0 <= i <= |items| && |merged| == |items|
      invariant forall k :: 0 <= k < i ==> merged[k] == MergeItem(itemType, items[k], index)
      invariant forall k :: i <= k < |items| ==> merged[k] == items[k]
    {
      merged := merged[i := MergeItem(itemType, merged[i], index)];
      i := i + 1;
    }
  }

  predicate DataReady(byType: map<string, seq<Entity>>)
  {
    forall t :: t in byType ==> NamesReady(byType[t])
  }

  /** merge_online_fields: every item of every list is merged in place; the type
      keys and the list lengths stay. */
  method MergeOnlineFields(localData: LocalData, index: map<string, Entity>) returns (r: LocalData)
    requires DataReady(localData.byType)
    modifies localData
    ensures r == localData
    ensures localData.byType.Keys == old(localData.byType).Keys
    ensures forall t :: t in localData.byType ==>
      && |localData.byType[t]| == |old(localData.byType)[t]|
      && forall k :: 0 <= k < |localData.byType[t]| ==>
           localData.byType[t][k] == MergeItem(t, old(localData.byType)[t][k], index)
  {
    ghost var before := localData.byType;
    var todo := localData.byType.Keys;
    while todo != {}
      invariant todo <= before.Keys
      invariant localData.byType.Keys == before.Keys
      invariant forall t :: t in before && t !in todo ==>
        && |localData.byType[t]| == |before[t]|
        && forall k :: 0 <= k < |before[t]| ==> localData.byType[t][k] == MergeItem(t, before[t][k], index)
      invariant forall t :: t in todo ==> localData.byType[t] == before[t]
      decreases todo
    {
      var itemType :| itemType in todo;
      var merged := MergeItems(itemType, localData.byType[itemType], index);
      localData.byType := localData.byType[itemType := merged];
      todo := todo - {itemType};
    }
    return localData;
  }

  /** The merge writes at most the field of the item's type, with the feed item's
      value, and only when the trimmed, lower-cased name is a key of the index
      and the feed item has that field; nothing is removed and no other field
      changes. */
  lemma MergeItemWrites(itemType: string, item: Entity, index: map<string, Entity>)
    ensures item.Keys <= MergeItem(itemType, item, index).Keys
    ensures forall f :: f in item && Some(f) != MergedField(itemType) ==> MergeItem(itemType, item, index)[f] == item[f]
    ensures forall f :: f in MergeItem(itemType, item, index) && f !in item ==> Some(f) == MergedField(itemType)
    ensures MergeItem(itemType, item, index) != item <==>
      && Normal(item, "name") in index
      && MergedField(itemType).Some?
      && var f := MergedField(itemType).value;
         f in index[Normal(item, "name")]
         && (f !in item || item[f] != index[Normal(item, "name")][f])
    ensures MergedField(itemType).Some? && Normal(item, "name") in index
            && MergedField(itemType).value in index[Normal(item, "name")] ==>
      var f := MergedField(itemType).value;
      f in MergeItem(itemType, item, index) && MergeItem(itemType, item, index)[f] == index[Normal(item, "name")][f]
  {
    var merged := MergeItem(itemType, item, index);
    if MergedField(itemType).Some? && Normal(item, "name") in index {
      var f := MergedField(itemType).value;
      var onlineItem := index[Normal(item, "name")];
      if f in onlineItem && f in item && item[f] == onlineItem[f] {
        assert merged == item;
      }
      if f in onlineItem && (f !in item || item[f] != onlineItem[f]) {
        assert merged[f] == onlineItem[f];
      }
    }
  }

  /** Merging a merged item again changes nothing. */
  lemma MergeItemIdempotent(itemType: string, item: Entity, index: map<string, Entity>)
    ensures MergeItem(itemType, MergeItem(itemType, item, index), index) == MergeItem(itemType, item, index)
  {
    var merged := MergeItem(itemType, item, index);
    assert Normal(merged, "name") == Normal(item, "name") by {
      assert "name" in merged <==> "name" in item;
      if "name" in item {
        assert merged["name"] == item["name"];
      }
    }
  }

  // ---------------------------------------------------------------- convert_online_to_local

  /** The eight buckets of local_data, in the order the dict literal lists them. */
  const Buckets: seq<string> := ["armor", "ring", "sword", "hammer", "spear", "staff", "dagger", "axe"]

  predicate ConvertReady(online: seq<Entity>)
  {
    forall i :: 0 <= i < |online| ==> StrField(online[i], "type") && StrField(online[i], "secondaryType")
  }

  /** The bucket chosen from the trimmed, lower-cased type and secondary type and
      whether the item carries maxLevelArmor: armour first, then rings, then
      weapons by secondary type (shuriken with daggers, unknown ones as swords),
      and anything else as a ring. */
  function TargetFor(itemTypeField: string, secondary: string, hasArmorLevel: bool): (t: string)
    ensures t in Buckets
  {
    if itemTypeField == "armor" || hasArmorLevel then "armor"
    else if itemTypeField == "ring" then "ring"
    else if itemTypeField == "weapon" then
      if secondary == "sword" then "sword"
      else if secondary == "spear" then "spear"
      else if secondary == "staff" then "staff"
      else if secondary == "dagger" || secondary == "shuriken" then "dagger"
      else if secondary == "hammer" then "hammer"
      else if secondary == "axe" then "axe"
      else "sword"
    else "ring"
  }

  /** The bucket an item of the feed goes to. */
  function Target(item: Entity): (t: string)
  {
    TargetFor(Normal(item, "type"), Normal(item, "secondaryType"), "maxLevelArmor" in item)
  }

  /** The branch chain of the loop body. */
  method ChooseTarget(itemTypeField: string, secondary: string, hasArmorLevel: bool) returns (target: string)
    ensures target == TargetFor(itemTypeField, secondary, hasArmorLevel)
  {
    if itemTypeField == "armor" || hasArmorLevel {
      target := "armor";
    } else if itemTypeField == "ring" {
      target := "ring";
    } else if itemTypeField == "weapon" {
      if secondary in ["sword"] {
        target := "sword";
      } else if secondary in ["spear"] {
        target := "spear";
      } else if secondary in ["staff"] {
        target := "staff";
      } else if secondary in ["dagger", "shuriken"] {
        target := "dagger";
      } else if secondary in ["hammer"] {
        target := "hammer";
      } else if secondary in ["axe"] {
        target := "axe";
      } else {
        target := "sword";
      }
    } else {
      target := "ring";
    }
  }

  /** The bucket of one item, from its trimmed, lower-cased fields. */
  method BucketOf(item: Entity) returns (target: string)
    requires StrField(item, "type") && StrField(item, "secondaryType")
    ensures target == Target(item) && target in Buckets
  {
    target := ChooseTarget(Lower(Strip(GetStr(item, "type"))), Lower(Strip(GetStr(item, "secondaryType"))),
                           "maxLevelArmor" in item);
  }

  /** The eight empty lists local_data starts with. */
  function EmptyBuckets(): (r: map<string, seq<Entity>>)
    ensures forall b :: b in r <==> b in Buckets
    ensures forall b :: b in r ==> r[b] == []
  {
    map["armor" := [], "ring" := [], "sword" := [], "hammer" := [],
        "spear" := [], "staff" := [], "dagger" := [], "axe" := []]
  }

  /** One pass of the loop: the i-th item goes to the end of its bucket. */
  method ConvertNext(online: seq<Entity>, i: int, localData: map<string, seq<Entity>>)
    returns (localData': map<string, seq<Entity>>)
    requires ConvertReady(online) && 0 <= i < |online|
    requires forall b :: b in localData <==> b in Buckets
    requires forall b :: b in localData ==> localData[b] == Filter(online[..i], Matches(Target, b))
    ensures forall b :: b in localData' <==> b in Buckets
    ensures forall b :: b in localData' ==> localData'[b] == Filter(online[..i + 1], Matches(Target, b))
  {
    var target := BucketOf(online[i]);
    assert target in localData;
    localData' := GroupAppend(online, i, Target, localData, target);
  }

  /** convert_online_to_local: each bucket holds the feed items that go to it,
      in feed order. */
  method ConvertOnlineToLocal(online: seq<Entity>) returns (localData: map<string, seq<Entity>>)
    requires ConvertReady(online)
    ensures forall b :: b in localData <==> b in Buckets
    ensures forall b :: b in localData ==> localData[b] == Filter(online, Matches(Target, b))
  {
    localData := EmptyBuckets();
    var i := 0;
    while i < |online|
      invariant 0 <= i <= |online|
      invariant forall b :: b in localData <==> b in Buckets
      invariant forall b :: b in localData ==> localData[b] == Filter(online[..i], Matches(Target, b))
    {
      localData := ConvertNext(online, i, localData);
      i := i + 1;
    }
    WholePrefix(online);
  }

  /** Every feed item lands in exactly one of the eight buckets: their sizes add
      up to the length of the feed. */
  lemma ConvertedTotal(online: seq<Entity>)
    ensures GroupSizes(online, Target, Buckets) == |online|
  {
    BucketsDistinct();
    forall i | 0 <= i < |online| ensures Target(online[i]) in Buckets {
    }
    GroupSizesTotal(online, Target, Buckets);
  }

  lemma BucketsDistinct()
    ensures forall i, j :: 0 <= i < j < |Buckets| ==> Buckets[i] != Buckets[j]
  {
  }
}
