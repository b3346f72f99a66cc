/**
 * The wardrobe store of src/services/clothingService.ts: three browser-storage entries holding the
 * tops, the bottoms and the outfit suggestions as lists. Every operation reads an entry, changes the
 * list and writes it back. An entry that cannot be parsed is `Corrupt`; reading it fails, and the
 * service catches that failure.
 */
module ClothingService {
  import opened Seqs
  import opened Clothing

  /** The three storage keys. */
  datatype StorageKey = TopsKey | BottomsKey | SuggestionsKey

  /** The browser-storage key each entry is kept under. */
  function KeyName(k: StorageKey): string
  {
    match k
    case TopsKey => "closet-fusion-tops"
    case BottomsKey => "closet-fusion-bottoms"
    case SuggestionsKey => "outfit-suggestions"
  }

  /** The three entries live under different names, so writing one never overwrites another. */
  lemma KeyNamesDistinct(a: StorageKey, b: StorageKey)
    ensures KeyName(a) == KeyName(b) <==> a == b
  {
  }

  /** The key that holds the list for items of type `t`. */
  function ItemKey(t: ClothingType): StorageKey
  {
    if t == Top then TopsKey else BottomsKey
  }

  /** What an entry holds once parsed, or `Corrupt` when parsing it fails. */
  datatype Entry = ItemList(items: seq<ClothingItem>) | SuggestionList(suggestions: seq<OutfitSuggestion>) | Corrupt

  type Storage = map<StorageKey, Entry>

  /** Item keys hold item lists, the suggestion key holds a suggestion list (or either is corrupt). */
  ghost predicate WellTyped(m: Storage)
  {
    && (TopsKey in m ==> !m[TopsKey].SuggestionList?)
    && (BottomsKey in m ==> !m[BottomsKey].SuggestionList?)
    && (SuggestionsKey in m ==> !m[SuggestionsKey].ItemList?)
  }

  predicate IsCorrupt(m: Storage, k: StorageKey)
  {
    k in m && m[k].Corrupt?
  }

  /** The item list under `k`; an absent or corrupt entry reads as `[]`. */
  function ItemsIn(m: Storage, k: StorageKey): (r: seq<ClothingItem>)
    ensures k in m && m[k].ItemList? ==> r == m[k].items
    ensures r != [] ==> k in m && m[k].ItemList?
  {
    if k in m && m[k].ItemList? then m[k].items else []
  }

  /** What `fetchClothingItems()` returns: tops then bottoms, or `[]` when either list is unreadable. */
  function AllItems(m: Storage): (r: seq<ClothingItem>)
    ensures IsCorrupt(m, TopsKey) || IsCorrupt(m, BottomsKey) ==> r == []
    ensures !IsCorrupt(m, TopsKey) && !IsCorrupt(m, BottomsKey) ==>
              |r| == |ItemsIn(m, TopsKey)| + |ItemsIn(m, BottomsKey)| &&
              r[..|ItemsIn(m, TopsKey)|] == ItemsIn(m, TopsKey) && r[|ItemsIn(m, TopsKey)|..] == ItemsIn(m, BottomsKey)
  {
    if IsCorrupt(m, TopsKey) || IsCorrupt(m, BottomsKey) then [] else ItemsIn(m, TopsKey) + ItemsIn(m, BottomsKey)
  }

  /** The suggestion list; an absent or corrupt entry reads as `[]`. */
  function SuggestionsIn(m: Storage): (r: seq<OutfitSuggestion>)
    ensures SuggestionsKey in m && m[SuggestionsKey].SuggestionList? ==> r == m[SuggestionsKey].suggestions
    ensures r != [] ==> SuggestionsKey in m && m[SuggestionsKey].SuggestionList?
  {
    if SuggestionsKey in m && m[SuggestionsKey].SuggestionList? then m[SuggestionsKey].suggestions else []
  }

  /** `list.filter(item => item.id !== id)`. */
  function WithoutId(items: seq<ClothingItem>, id: string): (r: seq<ClothingItem>)
    ensures |r| <= |items|
    ensures forall i :: 0 <= i < |r| ==> r[i].id != id && r[i] in items
    ensures forall i :: 0 <= i < |items| && items[i].id != id ==> items[i] in r
  {
    Filter(items, (item: ClothingItem) => item.id != id)
  }

  /** Deleting twice is deleting once. */
  lemma WithoutIdIdempotent(items: seq<ClothingItem>, id: string)
    ensures WithoutId(WithoutId(items, id), id) == WithoutId(items, id)
  {
    FilterIdempotent(items, (item: ClothingItem) => item.id != id);
  }

  /** The items kept, in their original order. */
  lemma WithoutIdIsSubsequence(items: seq<ClothingItem>, id: string)
    ensures IsSubsequence(WithoutId(items, id), items)
  {
    FilterIsSubsequence(items, (item: ClothingItem) => item.id != id);
  }

  /** The fields of `Omit<ClothingItem, 'id'>` that `saveClothingItem` is given. */
  datatype NewItem = NewItem(
    kind: ClothingType,
    imageUrl: string,
    color: string,
    style: string,
    fabric: string,
    name: Option<string>,
    added: int)

  /** `{ ...item, id: uuidv4(), added: new Date() }`, with the id and the time as parameters. */
  function WithId(item: NewItem, id: string, now: int): (r: ClothingItem)
    ensures r.id == id && r.added == now
    ensures r.kind == item.kind && r.imageUrl == item.imageUrl && r.color == item.color &&
            r.style == item.style && r.fabric == item.fabric && r.name == item.name
  {
    ClothingItem(id, item.kind, item.imageUrl, item.color, item.style, item.fabric, item.name, now)
  }

  /** Rewrites a readable item list under `k` without `id`; absent or corrupt entries stay. */
  function DropFrom(m: Storage, k: StorageKey, id: string): (r: Storage)
    ensures r.Keys == m.Keys
    ensures forall k2 :: k2 in m && k2 != k ==> r[k2] == m[k2]
  {
    if k in m && m[k].ItemList? then m[k := ItemList(WithoutId(m[k].items, id))] else m
  }

  lemma DropFromIdempotent(m: Storage, k: StorageKey, id: string)
    ensures DropFrom(DropFrom(m, k, id), k, id) == DropFrom(m, k, id)
  {
    if k in m && m[k].ItemList? {
      WithoutIdIdempotent(m[k].items, id);
    }
  }

  lemma DropFromCommute(m: Storage, k1: StorageKey, k2: StorageKey, id: string)
    requires k1 != k2
    ensures DropFrom(DropFrom(m, k1, id), k2, id) == DropFrom(DropFrom(m, k2, id), k1, id)
  {
  }

  /** Storage after `deleteClothingItem(id)`: each item list present is filtered in turn, tops first.
      Reading a corrupt list throws, so nothing after it is written. */
  function AfterDelete(m: Storage, id: string): (r: Storage)
    ensures r.Keys == m.Keys
    // only the two item lists can change
    ensures forall k :: k in m && k != TopsKey && k != BottomsKey ==> r[k] == m[k]
    ensures IsCorrupt(m, TopsKey) ==> r == m
  {
    if IsCorrupt(m, TopsKey) then m
    else if IsCorrupt(m, BottomsKey) then DropFrom(m, TopsKey, id)
    else DropFrom(DropFrom(m, TopsKey, id), BottomsKey, id)
  }

  /** Deletion removes every item with the id from readable lists, leaves absent keys absent and
      never touches the suggestions, so a suggestion may now refer to a missing item. */
  lemma DeleteEffect(m: Storage, id: string)
    requires WellTyped(m)
    ensures WellTyped(AfterDelete(m, id))
    ensures var m' := AfterDelete(m, id);
      && m'.Keys == m.Keys
      && (SuggestionsKey in m ==> m'[SuggestionsKey] == m[SuggestionsKey])
      && (IsCorrupt(m, TopsKey) ==> m' == m)
      && (!IsCorrupt(m, TopsKey) && TopsKey in m ==> m'[TopsKey] == ItemList(WithoutId(ItemsIn(m, TopsKey), id)))
      && (!IsCorrupt(m, TopsKey) && BottomsKey in m ==>
            m'[BottomsKey] == if IsCorrupt(m, BottomsKey) then Corrupt else ItemList(WithoutId(ItemsIn(m, BottomsKey), id)))
  {
    if !IsCorrupt(m, TopsKey) {
      var t := DropFrom(m, TopsKey, id);
      assert TopsKey in m ==> t[TopsKey] == ItemList(WithoutId(ItemsIn(m, TopsKey), id));
      assert BottomsKey in m ==> t[BottomsKey] == m[BottomsKey];
      if !IsCorrupt(m, BottomsKey) {
        assert BottomsKey in m ==> DropFrom(t, BottomsKey, id)[BottomsKey] == ItemList(WithoutId(ItemsIn(m, BottomsKey), id));
      }
    }
  }

  /** Deleting the same id twice leaves the store as deleting it once. */
  lemma DeleteIdempotent(m: Storage, id: string)
    ensures AfterDelete(AfterDelete(m, id), id) == AfterDelete(m, id)
  {
    if !IsCorrupt(m, TopsKey) {
      var t := DropFrom(m, TopsKey, id);
      DropFromIdempotent(m, TopsKey, id);
      assert !IsCorrupt(t, TopsKey);
      if IsCorrupt(m, BottomsKey) {
        assert IsCorrupt(t, BottomsKey);
      } else {
        var tb := DropFrom(t, BottomsKey, id);
        assert !IsCorrupt(tb, TopsKey) && !IsCorrupt(tb, BottomsKey);
        DropFromCommute(tb, TopsKey, BottomsKey, id);
        DropFromCommute(t, TopsKey, BottomsKey, id);
        DropFromIdempotent(t, BottomsKey, id);
        DropFromIdempotent(DropFrom(m, BottomsKey, id), TopsKey, id);
        DropFromCommute(m, TopsKey, BottomsKey, id);
      }
    }
  }

  /** The browser storage as seen by the service. */
  class WardrobeStore {
    var storage: Storage

    ghost predicate Valid()
      reads this
    {
      WellTyped(storage)
    }

    constructor (initial: Storage)
      requires WellTyped(initial)
      ensures Valid() && storage == initial
    {
      storage := initial;
    }

    /** `fetchClothingItems(type)`: with a type, that key's list (`[]` if absent or unreadable);
        without one, tops then bottoms — and `[]` if either list is unreadable. */
    method FetchClothingItems(kind: Option<ClothingType>) returns (items: seq<ClothingItem>)
      requires Valid()
      ensures kind == Some(Top) ==> items == ItemsIn(storage, TopsKey)
      ensures kind == Some(Bottom) ==> items == ItemsIn(storage, BottomsKey)
      ensures kind.None? && (IsCorrupt(storage, TopsKey) || IsCorrupt(storage, BottomsKey)) ==> items == []
      ensures kind.None? && !IsCorrupt(storage, TopsKey) && !IsCorrupt(storage, BottomsKey) ==>
                items == ItemsIn(storage, TopsKey) + ItemsIn(storage, BottomsKey)
      ensures kind.None? ==> items == AllItems(storage)
    {
      var hasTops, hasBottoms := TopsKey in storage, BottomsKey in storage;
      items := [];
      if kind == Some(Top) && hasTops {
        if storage[TopsKey].Corrupt? { return []; }
        items := storage[TopsKey].items;
      } else if kind == Some(Bottom) && hasBottoms {
        if storage[BottomsKey].Corrupt? { return []; }
        items := storage[BottomsKey].items;
      } else if kind.None? {
        var tops: seq<ClothingItem> := [];
        var bottoms: seq<ClothingItem> := [];
        if hasTops {
          if storage[TopsKey].Corrupt? { return []; }
          tops := storage[TopsKey].items;
        }
        if hasBottoms {
          if storage[BottomsKey].Corrupt? { return []; }
          bottoms := storage[BottomsKey].items;
        }
        items := tops + bottoms;
      }
    }

    /** `fetchOutfitSuggestions()`: the stored list, or `[]` when absent or unreadable. */
    method FetchOutfitSuggestions() returns (suggestions: seq<OutfitSuggestion>)
      requires Valid()
      ensures suggestions == SuggestionsIn(storage)
      ensures IsCorrupt(storage, SuggestionsKey) ==> suggestions == []
    {
      suggestions := [];
      if SuggestionsKey in storage && !storage[SuggestionsKey].Corrupt? {
        suggestions := storage[SuggestionsKey].suggestions;
      }
    }

    /** `saveClothingItem(item)`: appends the new item to its type's list (read as `[]` when absent
        or unreadable) and returns it; no other entry changes. */
    method SaveClothingItem(item: NewItem, id: string, now: int) returns (saved: ClothingItem)
      requires Valid()
      modifies this
      ensures Valid()
      ensures saved == WithId(item, id, now)
      ensures storage == old(storage)[ItemKey(item.kind) := ItemList(old(ItemsIn(storage, ItemKey(item.kind))) + [saved])]
      ensures old(IsCorrupt(storage, ItemKey(item.kind))) ==> storage[ItemKey(item.kind)] == ItemList([saved])
    {
      saved := WithId(item, id, now);
      var existing := FetchClothingItems(Some(item.kind));
      var updated := existing + [saved];
      storage := storage[ItemKey(item.kind) := ItemList(updated)];
    }

    /** `saveOutfitSuggestion(s)`: appends without de-duplication; an unreadable list is caught and
        left as it is. The argument is returned either way. */
    method SaveOutfitSuggestion(suggestion: OutfitSuggestion) returns (r: OutfitSuggestion)
      requires Valid()
      modifies this
      ensures Valid()
      ensures r == suggestion
      ensures old(IsCorrupt(storage, SuggestionsKey)) ==> storage == old(storage)
      ensures !old(IsCorrupt(storage, SuggestionsKey)) ==>
                storage == old(storage)[SuggestionsKey := SuggestionList(old(SuggestionsIn(storage)) + [suggestion])]
    {
      var existing: seq<OutfitSuggestion> := [];
      if SuggestionsKey in storage {
        if storage[SuggestionsKey].Corrupt? { return suggestion; }
        existing := storage[SuggestionsKey].suggestions;
      }
      storage := storage[SuggestionsKey := SuggestionList(existing + [suggestion])];
      r := suggestion;
    }

    /** `localStorage.setItem(key, JSON.stringify(items))` for the list of type `t`, as pages do directly. */
    method SetItems(t: ClothingType, items: seq<ClothingItem>)
      requires Valid()
      modifies this
      ensures Valid()
      ensures storage == old(storage)[ItemKey(t) := ItemList(items)]
    {
      storage := storage[ItemKey(t) := ItemList(items)];
    }

    /** `deleteClothingItem(id)`: filters the tops, then the bottoms. `ok` is false when a read
        failed, which the service rethrows. */
    method DeleteClothingItem(id: string) returns (ok: bool)
      requires Valid()
      modifies this
      ensures Valid()
      ensures ok == !(old(IsCorrupt(storage, TopsKey)) || old(IsCorrupt(storage, BottomsKey)))
      ensures storage == AfterDelete(old(storage), id)
    {
      if TopsKey in storage {
        if storage[TopsKey].Corrupt? { return false; }
        var tops := storage[TopsKey].items;
        storage := storage[TopsKey := ItemList(WithoutId(tops, id))];
      }
      if BottomsKey in storage {
        if storage[BottomsKey].Corrupt? { return false; }
        var bottoms := storage[BottomsKey].items;
        storage := storage[BottomsKey := ItemList(WithoutId(bottoms, id))];
      }
      ok := true;
    }
  }
}
