/**
 * The wardrobe's data model: clothing items, outfit suggestions, and the lookups every page does
 * on them (`items.find(item => item.id === id)`, the `name || fallback` display rule, and
 * `Math.round(score * 100)`).
 */
module Clothing {
  import opened Seqs

  datatype Option<T> = None | Some(value: T)

  datatype ClothingType = Top | Bottom

  /** The string value of the `type` field. */
  function TypeName(t: ClothingType): string
  {
    match t
    case Top => "top"
    case Bottom => "bottom"
  }

  /** A stored clothing item; `kind` is the source's `type` field, `added` a timestamp. */
  datatype ClothingItem = ClothingItem(
    id: string,
    kind: ClothingType,
    imageUrl: string,
    color: string,
    style: string,
    fabric: string,
    name: Option<string>,
    added: int)

  /** A scored pairing of a top and a bottom, referring to them by id. */
  datatype OutfitSuggestion = OutfitSuggestion(
    id: string,
    topId: string,
    bottomId: string,
    score: real,
    matchReason: string)

  /** Lucide icons the cards and pages pick by score. */
  datatype Icon = Trophy | Award | Star | Sparkles | Zap

  /** `items.find(item => item.id === id)`: the first item carrying `id`, if any. */
  function FindById(items: seq<ClothingItem>, id: string): (r: Option<ClothingItem>)
    ensures r.None? <==> forall i :: 0 <= i < |items| ==> items[i].id != id
    ensures r.Some? ==> exists i :: 0 <= i < |items| && items[i] == r.value && items[i].id == id &&
                                   forall j :: 0 <= j < i ==> items[j].id != id
  {
    if items == [] then None
    else if items[0].id == id then Some(items[0])
    else
      var r := FindById(items[1..], id);
      assert r.Some? ==> exists i :: 1 <= i < |items| && items[i] == r.value && items[i].id == id &&
                                     forall j :: 0 <= j < i ==> items[j].id != id by {
        if r.Some? {
          var i :| 0 <= i < |items[1..]| && items[1..][i] == r.value && items[1..][i].id == id &&
                   forall j :: 0 <= j < i ==> items[1..][j].id != id;
          assert items[i + 1] == r.value;
          assert forall j :: 0 <= j < i + 1 ==> items[j].id != id by {
            forall j | 0 <= j < i + 1
              ensures items[j].id != id
            {
              if j > 0 { assert items[j] == items[1..][j - 1]; }
            }
          }
        }
      }
      r
  }

  /** JavaScript's `item.name || fallback`: an absent or empty name gives way to the fallback. */
  function NameOr(item: ClothingItem, fallback: string): (r: string)
    ensures (item.name.Some? && item.name.value != "") ==> r == item.name.value
    ensures (item.name.None? || item.name.value == "") ==> r == fallback
  {
    match item.name
    case Some(n) => if n != "" then n else fallback
    case None => fallback
  }

  /** A suggestion together with the two items it refers to. */
  datatype ResolvedOutfit = ResolvedOutfit(top: ClothingItem, bottom: ClothingItem, suggestion: OutfitSuggestion)

  /** Looks up both referenced items; `None` when the suggestion dangles. */
  function Resolve(s: OutfitSuggestion, items: seq<ClothingItem>): (r: Option<ResolvedOutfit>)
    ensures r.Some? <==> FindById(items, s.topId).Some? && FindById(items, s.bottomId).Some?
    ensures r.Some? ==> r.value.suggestion == s &&
                        r.value.top.id == s.topId && r.value.bottom.id == s.bottomId
  {
    var top := FindById(items, s.topId);
    var bottom := FindById(items, s.bottomId);
    if top.Some? && bottom.Some? then Some(ResolvedOutfit(top.value, bottom.value, s)) else None
  }

  /** The values `f` yields, in order, skipping the elements it maps to `None`. */
  function Collect<T, U>(s: seq<T>, f: T -> Option<U>): (r: seq<U>)
    ensures |r| <= |s|
  {
    if s == [] then []
    else
      var n := |s| - 1;
      Collect(s[..n], f) + (if f(s[n]).Some? then [f(s[n]).value] else [])
  }

  /** A value is collected exactly when some element yields it. */
  lemma {:induction false} CollectMembers<T, U>(s: seq<T>, f: T -> Option<U>, o: U)
    ensures o in Collect(s, f) <==> exists i :: 0 <= i < |s| && f(s[i]) == Some(o)
    decreases |s|
  {
    if s != [] {
      var n := |s| - 1;
      var front := s[..n];
      CollectMembers(front, f, o);
      if o in Collect(front, f) {
        var i :| 0 <= i < n && f(front[i]) == Some(o);
        assert s[i] == front[i];
      } else if f(s[n]) != Some(o) {
        forall i | 0 <= i < |s|
          ensures f(s[i]) != Some(o)
        {
          if i < n {
            assert s[i] == front[i];
          }
        }
      }
    }
  }

  /** Collecting lines up with filtering by the same test: one value per kept element, in order. */
  lemma {:induction false} CollectAligned<T, U>(s: seq<T>, f: T -> Option<U>, p: T -> bool)
    requires forall x :: p(x) == f(x).Some?
    ensures |Collect(s, f)| == |Filter(s, p)|
    ensures forall k :: 0 <= k < |Filter(s, p)| ==> f(Filter(s, p)[k]) == Some(Collect(s, f)[k])
    decreases |s|
  {
    if s != [] {
      var n := |s| - 1;
      CollectAligned(s[..n], f, p);
      var c, fl := Collect(s[..n], f), Filter(s[..n], p);
      assert Collect(s, f) == c + (if f(s[n]).Some? then [f(s[n]).value] else []);
      assert Filter(s, p) == fl + (if p(s[n]) then [s[n]] else []);
    }
  }

  /** The suggestions that resolve, in order, each paired with its items: exactly one outfit for each
      suggestion whose two items are found, so a suggestion saved twice gives two outfits. */
  function ResolveAll(suggestions: seq<OutfitSuggestion>, items: seq<ClothingItem>): (r: seq<ResolvedOutfit>)
    ensures |r| <= |suggestions|
    ensures |r| == |Filter(suggestions, (s: OutfitSuggestion) => Resolve(s, items).Some?)|
    ensures forall k :: 0 <= k < |r| ==>
              Resolve(Filter(suggestions, (s: OutfitSuggestion) => Resolve(s, items).Some?)[k], items) == Some(r[k])
  {
    CollectAligned(suggestions, s => Resolve(s, items), (s: OutfitSuggestion) => Resolve(s, items).Some?);
    Collect(suggestions, s => Resolve(s, items))
  }

  /** An outfit is among the resolved ones exactly when some suggestion resolves to it. */
  lemma ResolveAllMembers(suggestions: seq<OutfitSuggestion>, items: seq<ClothingItem>, o: ResolvedOutfit)
    ensures o in ResolveAll(suggestions, items) <==> exists i :: 0 <= i < |suggestions| && Resolve(suggestions[i], items) == Some(o)
  {
    CollectMembers(suggestions, s => Resolve(s, items), o);
  }

  /** `Math.round(score * 100)`, computed on exact reals (`Math.round` rounds halves up). */
  function Percentage(score: real): (r: int)
    // the integer nearest to score * 100, a half rounding up
    ensures r as real - 0.5 <= score * 100.0 < r as real + 0.5
  {
    (score * 100.0 + 0.5).Floor
  }

  /** A score in [0, 1] shows as a percentage in [0, 100]. */
  lemma PercentageRange(score: real)
    requires 0.0 <= score <= 1.0
    ensures 0 <= Percentage(score) <= 100
  {
  }

  /** A higher score never shows as a lower percentage. */
  lemma PercentageMonotone(a: real, b: real)
    requires a <= b
    ensures Percentage(a) <= Percentage(b)
  {
  }
}
