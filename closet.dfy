/**
 * The closet page of src/pages/Closet.tsx: two lists on screen, tops and bottoms, loaded from the
 * wardrobe store, grown at the front by uploads, shrunk by deletes, and written back to the store
 * as a backup whenever a list changes and is non-empty.
 */
module Closet {
  import opened Seqs
  import opened Text
  import opened Clothing
  import opened ClothingService

  /** What image analysis attaches to an upload: the dominant colour, a style and a fabric. */
  datatype Tags = Tags(color: string, style: string, fabric: string)

  /** The search test: the lower-cased query occurs in the lower-cased name, style or fabric. A
      missing name does not match. */
  predicate SearchMatches(query: string, item: ClothingItem)
  {
    var q := Lower(query);
    || (item.name.Some? && Contains(Lower(item.name.value), q))
    || Contains(Lower(item.style), q)
    || Contains(Lower(item.fabric), q)
  }

  /** `filteredTops` / `filteredBottoms`: the items that match, in their order on screen. */
  function SearchFilter(items: seq<ClothingItem>, query: string): (r: seq<ClothingItem>)
    ensures IsSubsequence(r, items)
    ensures forall i :: 0 <= i < |items| ==> (items[i] in r <==> SearchMatches(query, items[i]))
    ensures forall i :: 0 <= i < |r| ==> SearchMatches(query, r[i])
  {
    var r := Filter(items, item => SearchMatches(query, item));
    FilterIsSubsequence(items, item => SearchMatches(query, item));
    r
  }

  /** An empty search box hides nothing: every item has a style, which includes "". */
  lemma SearchEmptyKeepsAll(items: seq<ClothingItem>)
    ensures SearchFilter(items, "") == items
  {
    forall i | 0 <= i < |items|
      ensures SearchMatches("", items[i])
    {
      ContainsEmpty(Lower(items[i].style));
    }
    FilterKeepsAll(items, item => SearchMatches("", item));
  }

  /** The page state over the store it reads and writes. */
  class ClosetPage {
    const store: WardrobeStore
    var tops: seq<ClothingItem>
    var bottoms: seq<ClothingItem>

    ghost predicate Valid()
      reads this, store
    {
      store.Valid()
    }

    /** Mounting: each list is fetched by type; the backup writes that follow put back what was read. */
    constructor (s: WardrobeStore)
      requires s.Valid()
      modifies s
      ensures Valid() && store == s
      ensures tops == ItemsIn(old(s.storage), TopsKey) && bottoms == ItemsIn(old(s.storage), BottomsKey)
      ensures s.storage == old(s.storage)
    {
      store := s;
      var fetchedTops := s.FetchClothingItems(Some(Top));
      var fetchedBottoms := s.FetchClothingItems(Some(Bottom));
      tops := fetchedTops;
      bottoms := fetchedBottoms;
      new;
      BackupTops();
      BackupBottoms();
    }

    /** The effect on `tops`: a non-empty list is written to the store. */
    method BackupTops()
      requires Valid()
      modifies store
      ensures Valid()
      ensures store.storage == if |tops| > 0 then old(store.storage)[TopsKey := ItemList(tops)] else old(store.storage)
    {
      if |tops| > 0 {
        store.SetItems(Top, tops);
      }
    }

    /** The effect on `bottoms`: a non-empty list is written to the store. */
    method BackupBottoms()
      requires Valid()
      modifies store
      ensures Valid()
      ensures store.storage == if |bottoms| > 0 then old(store.storage)[BottomsKey := ItemList(bottoms)] else old(store.storage)
    {
      if |bottoms| > 0 {
        store.SetItems(Bottom, bottoms);
      }
    }

    /** `handleImageUploaded(imageData, type)`: when analysis fails (`tags` is `None`) nothing changes;
        otherwise the item is saved without a name, put at the front of its list, and that list is
        backed up. */
    method HandleImageUploaded(kind: ClothingType, imageUrl: string, tags: Option<Tags>, id: string, now: int)
      requires Valid()
      modifies this, store
      ensures Valid()
      ensures tags.None? ==> tops == old(tops) && bottoms == old(bottoms) && store.storage == old(store.storage)
      ensures tags.Some? ==>
                var saved := WithId(NewItem(kind, imageUrl, tags.value.color, tags.value.style, tags.value.fabric, None, now), id, now);
                && (kind == Top ==> tops == [saved] + old(tops) && bottoms == old(bottoms) &&
                                    store.storage == old(store.storage)[TopsKey := ItemList(tops)])
                && (kind == Bottom ==> bottoms == [saved] + old(bottoms) && tops == old(tops) &&
                                       store.storage == old(store.storage)[BottomsKey := ItemList(bottoms)])
    {
      if tags.None? { return; }
      var item := NewItem(kind, imageUrl, tags.value.color, tags.value.style, tags.value.fabric, None, now);
      var saved := store.SaveClothingItem(item, id, now);
      if kind == Top {
        tops := [saved] + tops;
        BackupTops();
      } else {
        bottoms := [saved] + bottoms;
        BackupBottoms();
      }
    }

    /** `handleDeleteItem(id)`: the id counts as a top when some top carries it. The store deletes it
        from both lists; if that fails the page keeps its lists, otherwise it filters the one list
        and backs it up. */
    method HandleDeleteItem(id: string)
      requires Valid()
      modifies this, store
      ensures Valid()
      ensures var deleted := AfterDelete(old(store.storage), id);
              var failed := IsCorrupt(old(store.storage), TopsKey) || IsCorrupt(old(store.storage), BottomsKey);
              var isTop := exists i :: 0 <= i < |old(tops)| && old(tops)[i].id == id;
              && (failed ==> tops == old(tops) && bottoms == old(bottoms) && store.storage == deleted)
              && (!failed && isTop ==>
                    tops == WithoutId(old(tops), id) && bottoms == old(bottoms) &&
                    store.storage == if |tops| > 0 then deleted[TopsKey := ItemList(tops)] else deleted)
              && (!failed && !isTop ==>
                    bottoms == WithoutId(old(bottoms), id) && tops == old(tops) &&
                    store.storage == if |bottoms| > 0 then deleted[BottomsKey := ItemList(bottoms)] else deleted)
    {
      var isTop := FindById(tops, id).Some?;
      var ok := store.DeleteClothingItem(id);
      if !ok { return; }
      if isTop {
        tops := WithoutId(tops, id);
        BackupTops();
      } else {
        bottoms := WithoutId(bottoms, id);
        BackupBottoms();
      }
    }
  }
}
