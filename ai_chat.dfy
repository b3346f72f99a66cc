/**
 * The selection logic of the styling chat in src/pages/AIChat.tsx: the wardrobe summary sent with
 * every question (item lists, at most ten saved combinations, the three most frequent colours,
 * styles and fabrics), and the reading of the reply (which items it mentions, which saved outfits
 * to show under it, and which one outfit it refers to).
 */
module AIChat {
  import opened Seqs
  import opened Text
  import opened Clothing
  import opened Ranking

  // ---------------------------------------------------------------- frequencies

  /** One entry of a `Record<string, number>` tally. */
  datatype Tallied = Tallied(value: string, count: nat)

  predicate DistinctValues(t: seq<Tallied>)
  {
    forall i, j :: 0 <= i < j < |t| ==> t[i].value != t[j].value
  }

  /** The count recorded for `w`, or 0 when `w` has no entry. */
  function Lookup(t: seq<Tallied>, w: string): nat
  {
    if t == [] then 0
    else if t[0].value == w then t[0].count
    else Lookup(t[1..], w)
  }

  predicate Positive(t: seq<Tallied>)
  {
    forall i :: 0 <= i < |t| ==> t[i].count >= 1
  }

  lemma {:induction false} LookupAt(t: seq<Tallied>, i: nat)
    requires DistinctValues(t) && i < |t|
    ensures Lookup(t, t[i].value) == t[i].count
    decreases i
  {
    if i > 0 {
      assert t[1..][i - 1] == t[i];
      LookupAt(t[1..], i - 1);
    }
  }

  lemma {:induction false} LookupAbsent(t: seq<Tallied>, w: string)
    requires forall i :: 0 <= i < |t| ==> t[i].value != w
    ensures Lookup(t, w) == 0
    decreases |t|
  {
    if t != [] {
      assert forall i :: 0 <= i < |t[1..]| ==> t[1..][i] == t[i + 1];
      LookupAbsent(t[1..], w);
    }
  }

  /** A value with a non-zero count has an entry. */
  lemma {:induction false} LookupFound(t: seq<Tallied>, w: string) returns (k: nat)
    requires Lookup(t, w) >= 1
    ensures k < |t| && t[k].value == w
    decreases |t|
  {
    if t[0].value == w {
      k := 0;
    } else {
      var k' := LookupFound(t[1..], w);
      k := k' + 1;
    }
  }

  lemma LookupCons(x: Tallied, t: seq<Tallied>, w: string)
    ensures Lookup([x] + t, w) == if x.value == w then x.count else Lookup(t, w)
  {
    assert ([x] + t)[1..] == t;
  }

  /** `acc[v] = (acc[v] || 0) + 1`: bumps the entry for `v`, or adds one at the end with count 1. */
  function Bump(t: seq<Tallied>, v: string): (r: seq<Tallied>)
    requires DistinctValues(t) && Positive(t)
    ensures DistinctValues(r) && Positive(r)
    ensures forall w :: Lookup(r, w) == Lookup(t, w) + (if w == v then 1 else 0)
    decreases |t|
  {
    if t == [] then [Tallied(v, 1)]
    else if t[0].value == v then
      var r := [Tallied(v, t[0].count + 1)] + t[1..];
      assert forall w :: Lookup(r, w) == Lookup(t, w) + (if w == v then 1 else 0) by {
        forall w ensures Lookup(r, w) == Lookup(t, w) + (if w == v then 1 else 0) {
          LookupCons(r[0], t[1..], w);
          LookupCons(t[0], t[1..], w);
          assert t == [t[0]] + t[1..];
        }
      }
      r
    else
      var rest := Bump(t[1..], v);
      var r := [t[0]] + rest;
      assert forall i :: 0 <= i < |t[1..]| ==> t[1..][i].value != t[0].value;
      LookupAbsent(t[1..], t[0].value);
      assert forall k :: 0 <= k < |rest| ==> rest[k].value != t[0].value by {
        forall k | 0 <= k < |rest| ensures rest[k].value != t[0].value {
          if rest[k].value == t[0].value { LookupAt(rest, k); }
        }
      }
      assert forall w :: Lookup(r, w) == Lookup(t, w) + (if w == v then 1 else 0) by {
        forall w ensures Lookup(r, w) == Lookup(t, w) + (if w == v then 1 else 0) {
          LookupCons(t[0], rest, w);
          LookupCons(t[0], t[1..], w);
          assert t == [t[0]] + t[1..];
        }
      }
      r
  }

  /** `values.reduce(...)` into a record: one entry per distinct value, in order of first appearance,
      counting its occurrences. */
  function Tally(values: seq<string>): (r: seq<Tallied>)
    ensures DistinctValues(r) && Positive(r)
    ensures forall w :: Lookup(r, w) == Count(values, w)
  {
    if values == [] then []
    else
      var n := |values| - 1;
      Bump(Tally(values[..n]), values[n])
  }

  /** Every recorded count is the number of occurrences of its value, hence that value occurs. */
  lemma TallyCounts(values: seq<string>, i: nat)
    requires i < |Tally(values)|
    ensures Tally(values)[i].count == Count(values, Tally(values)[i].value)
    ensures Tally(values)[i].value in values
  {
    var t := Tally(values);
    LookupAt(t, i);
    if t[i].value !in values {
      CountAbsent(values, t[i].value);
    }
  }

  /** Every value that occurs has an entry. */
  lemma TallyCovers(values: seq<string>, w: string) returns (k: nat)
    requires w in values
    ensures k < |Tally(values)| && Tally(values)[k].value == w
  {
    CountPositive(values, w);
    k := LookupFound(Tally(values), w);
  }

  /** Bumping keeps every existing entry's value in place, and adds `v` at the end when it is new. */
  lemma {:induction false} BumpShape(t: seq<Tallied>, v: string)
    requires DistinctValues(t) && Positive(t)
    ensures |Bump(t, v)| >= |t| && forall k :: 0 <= k < |t| ==> Bump(t, v)[k].value == t[k].value
    ensures (exists k :: 0 <= k < |t| && t[k].value == v) ==> |Bump(t, v)| == |t|
    ensures (forall k :: 0 <= k < |t| ==> t[k].value != v) ==> |Bump(t, v)| == |t| + 1 && Bump(t, v)[|t|].value == v
    decreases |t|
  {
    if t != [] && t[0].value != v {
      var rest := Bump(t[1..], v);
      BumpShape(t[1..], v);
      assert Bump(t, v) == [t[0]] + rest;
      if exists k :: 0 <= k < |t| && t[k].value == v {
        var k :| 0 <= k < |t| && t[k].value == v;
        assert t[1..][k - 1].value == v;
      }
    }
  }

  /** Entries are in order of first appearance: every occurrence of a later entry's value comes
      after an occurrence of an earlier entry's value. */
  lemma {:induction false} TallyOrder(values: seq<string>, i: nat, j: nat)
    requires i < j < |Tally(values)|
    ensures forall p :: 0 <= p < |values| && values[p] == Tally(values)[j].value ==>
              exists q :: 0 <= q < p && values[q] == Tally(values)[i].value
    decreases |values|, 1
  {
    forall p | 0 <= p < |values| && values[p] == Tally(values)[j].value
      ensures exists q :: 0 <= q < p && values[q] == Tally(values)[i].value
    {
      var q := TallyOrderAt(values, i, j, p);
    }
  }

  /** One occurrence `p` of the later value: an earlier position `q` holds the earlier value. */
  lemma {:induction false} TallyOrderAt(values: seq<string>, i: nat, j: nat, p: nat) returns (q: nat)
    requires i < j < |Tally(values)| && p < |values| && values[p] == Tally(values)[j].value
    ensures q < p && values[q] == Tally(values)[i].value
    decreases |values|, 0
  {
    var n := TallyLast(values);
    var pre := values[..n];
    if p == n {
      TallyCounts(pre, i);
      q :| 0 <= q < n && pre[q] == Tally(pre)[i].value;
    } else {
      assert values[p] == pre[p];
      TallyOrder(pre, i, j);
      q :| 0 <= q < p && pre[q] == Tally(pre)[i].value;
    }
  }

  /** The tally of `values` against the tally of all but its last value `values[n]`. */
  lemma TallyLast(values: seq<string>) returns (n: nat)
    requires values != []
    ensures n == |values| - 1
    ensures |Tally(values)| >= |Tally(values[..n])|
    ensures forall k :: 0 <= k < |Tally(values[..n])| ==> Tally(values)[k].value == Tally(values[..n])[k].value
    ensures |Tally(values)| > |Tally(values[..n])| ==>
              && |Tally(values)| == |Tally(values[..n])| + 1
              && Tally(values)[|Tally(values[..n])|].value == values[n]
              && values[n] !in values[..n]
  {
    n := |values| - 1;
    var pre := values[..n];
    var before := Tally(pre);
    assert Tally(values) == Bump(before, values[n]);
    BumpShape(before, values[n]);
    if |Tally(values)| > |before| && values[n] in pre {
      var k := TallyCovers(pre, values[n]);
      assert false;
    }
  }

  lemma {:induction false} CountPositive(values: seq<string>, w: string)
    requires w in values
    ensures Count(values, w) >= 1
    decreases |values|
  {
    var n := |values| - 1;
    if values[n] != w {
      assert w in values[..n];
      CountPositive(values[..n], w);
    }
  }

  lemma {:induction false} CountAbsent(values: seq<string>, w: string)
    requires w !in values
    ensures Count(values, w) == 0
    decreases |values|
  {
    if values != [] {
      var n := |values| - 1;
      assert w !in values[..n];
      CountAbsent(values[..n], w);
    }
  }

  function CountKey(t: Tallied): real
  {
    t.count as real
  }

  /** `Object.entries(counts).sort(([, a], [, b]) => b - a).slice(0, 3)`: the three most frequent values. */
  function MostCommon(values: seq<string>): (r: seq<Tallied>)
    ensures |r| == Min(3, |Tally(values)|)
    ensures DistinctValues(r)
    ensures forall i :: 0 <= i < |r| ==> r[i].value in values && r[i].count == Count(values, r[i].value)
    ensures forall i, j :: 0 <= i < j < |r| ==> r[i].count >= r[j].count
    // a value left out occurs no more often than any value listed
    ensures forall w, j :: 0 <= j < |r| && (forall i :: 0 <= i < |r| ==> r[i].value != w) ==> Count(values, w) <= r[j].count
  {
    var t := Tally(values);
    var r := TopK(t, CountKey, 3);
    MostCommonFacts(values, t, r);
    r
  }

  /** Values with equal counts keep their order in the tally, so ties are listed in order of first
      appearance. */
  lemma MostCommonStable(values: seq<string>, count: real)
    ensures WithKey(MostCommon(values), CountKey, count) <= WithKey(Tally(values), CountKey, count)
  {
    TopKStable(Tally(values), CountKey, 3, count);
  }

  lemma MostCommonFacts(values: seq<string>, t: seq<Tallied>, r: seq<Tallied>)
    requires t == Tally(values) && r == TopK(t, CountKey, 3)
    ensures DistinctValues(r)
    ensures forall i :: 0 <= i < |r| ==> r[i].value in values && r[i].count == Count(values, r[i].value)
    ensures forall w, j :: 0 <= j < |r| && (forall i :: 0 <= i < |r| ==> r[i].value != w) ==> Count(values, w) <= r[j].count
  {
    SubDistinct(t, r);
    forall i | 0 <= i < |r|
      ensures r[i].value in values && r[i].count == Count(values, r[i].value)
    {
      var k := IndexIn(t, r, i);
      TallyCounts(values, k);
    }
    forall w, j | 0 <= j < |r| && (forall i :: 0 <= i < |r| ==> r[i].value != w)
      ensures Count(values, w) <= r[j].count
    {
      if w in values {
        var k := TallyCovers(values, w);
        TallyCounts(values, k);
        assert t[k] !in r;
        assert multiset(r)[t[k]] < multiset(t)[t[k]];
      } else {
        CountAbsent(values, w);
      }
    }
  }

  /** The position in `t` of an element of a sub-multiset `r`. */
  lemma IndexIn(t: seq<Tallied>, r: seq<Tallied>, i: nat) returns (k: nat)
    requires multiset(r) <= multiset(t) && i < |r|
    ensures k < |t| && t[k] == r[i]
  {
    assert r[i] in multiset(r);
    assert r[i] in multiset(t);
    k :| 0 <= k < |t| && t[k] == r[i];
  }

  /** A sub-multiset of a list with distinct values has distinct values. */
  lemma SubDistinct(t: seq<Tallied>, r: seq<Tallied>)
    requires DistinctValues(t) && multiset(r) <= multiset(t)
    ensures DistinctValues(r)
  {
    forall i, j | 0 <= i < j < |r|
      ensures r[i].value != r[j].value
    {
      var a := IndexIn(t, r, i);
      var b := IndexIn(t, r, j);
      if r[i].value == r[j].value {
        assert a == b;
        TwiceInMultiset(r, i, j);
        OnceInMultiset(t, a);
        assert false;
      }
    }
  }

  lemma TwiceInMultiset<T>(r: seq<T>, i: nat, j: nat)
    requires i < j < |r| && r[i] == r[j]
    ensures multiset(r)[r[i]] >= 2
  {
    assert r == r[..i] + [r[i]] + r[i + 1..j] + [r[j]] + r[j + 1..];
  }

  lemma {:induction false} OnceInMultiset(t: seq<Tallied>, a: nat)
    requires DistinctValues(t) && a < |t|
    ensures multiset(t)[t[a]] == 1
  {
    assert t == t[..a] + [t[a]] + t[a + 1..];
    assert t[a] !in t[..a];
    assert t[a] !in t[a + 1..];
  }

  function Colors(items: seq<ClothingItem>): (r: seq<string>)
    ensures |r| == |items| && forall i :: 0 <= i < |items| ==> r[i] == items[i].color
  {
    seq(|items|, i requires 0 <= i < |items| => items[i].color)
  }

  function Styles(items: seq<ClothingItem>): (r: seq<string>)
    ensures |r| == |items| && forall i :: 0 <= i < |items| ==> r[i] == items[i].style
  {
    seq(|items|, i requires 0 <= i < |items| => items[i].style)
  }

  function Fabrics(items: seq<ClothingItem>): (r: seq<string>)
    ensures |r| == |items| && forall i :: 0 <= i < |items| ==> r[i] == items[i].fabric
  {
    seq(|items|, i requires 0 <= i < |items| => items[i].fabric)
  }

  /** `getMostCommonColors(items)`. */
  function GetMostCommonColors(items: seq<ClothingItem>): (r: seq<Tallied>)
    ensures |r| == Min(3, |Tally(Colors(items))|) && DistinctValues(r)
    ensures forall i :: 0 <= i < |r| ==> r[i].count == Count(Colors(items), r[i].value) >= 1
    ensures forall i, j :: 0 <= i < j < |r| ==> r[i].count >= r[j].count
    ensures forall w, j :: 0 <= j < |r| && (forall i :: 0 <= i < |r| ==> r[i].value != w) ==> Count(Colors(items), w) <= r[j].count
  {
    var r := MostCommon(Colors(items));
    forall i | 0 <= i < |r| ensures Count(Colors(items), r[i].value) >= 1 {
      CountPositive(Colors(items), r[i].value);
    }
    r
  }

  /** `getMostCommonStyles()`, over the whole wardrobe. */
  function GetMostCommonStyles(items: seq<ClothingItem>): (r: seq<Tallied>)
    ensures |r| == Min(3, |Tally(Styles(items))|) && DistinctValues(r)
    ensures forall i :: 0 <= i < |r| ==> r[i].count == Count(Styles(items), r[i].value) >= 1
    ensures forall i, j :: 0 <= i < j < |r| ==> r[i].count >= r[j].count
    ensures forall w, j :: 0 <= j < |r| && (forall i :: 0 <= i < |r| ==> r[i].value != w) ==> Count(Styles(items), w) <= r[j].count
  {
    var r := MostCommon(Styles(items));
    forall i | 0 <= i < |r| ensures Count(Styles(items), r[i].value) >= 1 {
      CountPositive(Styles(items), r[i].value);
    }
    r
  }

  /** `getMostCommonFabrics()`, over the whole wardrobe. */
  function GetMostCommonFabrics(items: seq<ClothingItem>): (r: seq<Tallied>)
    ensures |r| == Min(3, |Tally(Fabrics(items))|) && DistinctValues(r)
    ensures forall i :: 0 <= i < |r| ==> r[i].count == Count(Fabrics(items), r[i].value) >= 1
    ensures forall i, j :: 0 <= i < j < |r| ==> r[i].count >= r[j].count
    ensures forall w, j :: 0 <= j < |r| && (forall i :: 0 <= i < |r| ==> r[i].value != w) ==> Count(Fabrics(items), w) <= r[j].count
  {
    var r := MostCommon(Fabrics(items));
    forall i | 0 <= i < |r| ensures Count(Fabrics(items), r[i].value) >= 1 {
      CountPositive(Fabrics(items), r[i].value);
    }
    r
  }

  // ---------------------------------------------------------------- wardrobe summary

  predicate IsTop(item: ClothingItem)
  {
    item.kind == Top
  }

  predicate IsBottom(item: ClothingItem)
  {
    item.kind == Bottom
  }

  /** `found?.name || fallback` for an item that may not have been found. */
  function FoundName(found: Option<ClothingItem>, fallback: string): (r: string)
    ensures found.None? ==> r == fallback
    ensures found.Some? ==> r == NameOr(found.value, fallback)
  {
    match found
    case None => fallback
    case Some(item) => NameOr(item, fallback)
  }

  /** One line of the saved combinations: its number, the two names, the score in percent, the reason. */
  datatype ComboLine = ComboLine(number: nat, topName: string, bottomName: string, percent: real, reason: string)

  function ComboLineOf(index: nat, s: OutfitSuggestion, items: seq<ClothingItem>): (r: ComboLine)
    ensures r.number == index + 1 && r.percent == s.score * 100.0 && r.reason == s.matchReason
    // an item that is gone from the wardrobe still gets a line, under a placeholder
    ensures FindById(items, s.topId).None? ==> r.topName == "Top"
    ensures FindById(items, s.bottomId).None? ==> r.bottomName == "Bottom"
    // a found item is shown by its name, or by the placeholder when it has none
    ensures FindById(items, s.topId).Some? ==> r.topName == NameOr(FindById(items, s.topId).value, "Top")
    ensures FindById(items, s.bottomId).Some? ==> r.bottomName == NameOr(FindById(items, s.bottomId).value, "Bottom")
  {
    ComboLine(index + 1, FoundName(FindById(items, s.topId), "Top"), FoundName(FindById(items, s.bottomId), "Bottom"),
              s.score * 100.0, s.matchReason)
  }

  /** What `createWardrobiContext` writes into the prompt, before it is rendered as text. */
  datatype WardrobeSummary = WardrobeSummary(
    tops: seq<ClothingItem>,
    bottoms: seq<ClothingItem>,
    savedCount: nat,
    combinations: seq<ComboLine>,
    more: bool,
    topColors: seq<Tallied>,
    bottomColors: seq<Tallied>,
    styles: seq<Tallied>,
    fabrics: seq<Tallied>)

  /** The numbered lines for the first ten saved combinations. */
  function Combinations(suggestions: seq<OutfitSuggestion>, items: seq<ClothingItem>): (r: seq<ComboLine>)
    ensures |r| == Min(10, |suggestions|)
    ensures forall i :: 0 <= i < |r| ==> r[i] == ComboLineOf(i, suggestions[i], items)
  {
    var shown := Take(suggestions, 10);
    seq(|shown|, i requires 0 <= i < |shown| => ComboLineOf(i, shown[i], items))
  }

  /** `createWardrobiContext()`: the items split by type, the first ten saved combinations with a
      "more" marker when there are others, and the frequency summaries. */
  function CreateWardrobeContext(items: seq<ClothingItem>, suggestions: seq<OutfitSuggestion>): (r: WardrobeSummary)
    ensures r.savedCount == |suggestions|
    ensures |r.combinations| == Min(10, |suggestions|) <= 10
    ensures r.more <==> |suggestions| > 10
    ensures forall i :: 0 <= i < |r.combinations| ==> r.combinations[i] == ComboLineOf(i, suggestions[i], items)
    ensures r.tops == Filter(items, IsTop) && r.bottoms == Filter(items, IsBottom)
    ensures forall i :: 0 <= i < |r.tops| ==> r.tops[i].kind == Top && r.tops[i] in items
    ensures forall i :: 0 <= i < |r.bottoms| ==> r.bottoms[i].kind == Bottom && r.bottoms[i] in items
    ensures forall i :: 0 <= i < |items| ==> (items[i] in r.tops <==> items[i].kind == Top)
    ensures forall i :: 0 <= i < |items| ==> (items[i] in r.bottoms <==> items[i].kind == Bottom)
    ensures |r.tops| + |r.bottoms| == |items|
    // the style analysis: colours per type, styles and fabrics over the whole wardrobe
    ensures r.topColors == GetMostCommonColors(r.tops) && r.bottomColors == GetMostCommonColors(r.bottoms)
    ensures r.styles == GetMostCommonStyles(items) && r.fabrics == GetMostCommonFabrics(items)
  {
    var tops := Filter(items, IsTop);
    var bottoms := Filter(items, IsBottom);
    SplitByKind(items);
    var combinations := Combinations(suggestions, items);
    var topColors := GetMostCommonColors(tops);
    var bottomColors := GetMostCommonColors(bottoms);
    var styles := GetMostCommonStyles(items);
    var fabrics := GetMostCommonFabrics(items);
    WardrobeSummary(tops, bottoms, |suggestions|, combinations, |suggestions| > 10, topColors, bottomColors, styles, fabrics)
  }

  /** Every item is a top or a bottom, so the two lists share out the wardrobe. */
  lemma {:induction false} SplitByKind(items: seq<ClothingItem>)
    ensures |Filter(items, IsTop)| + |Filter(items, IsBottom)| == |items|
    decreases |items|
  {
    if items != [] {
      SplitByKind(items[..|items| - 1]);
    }
  }

  // ---------------------------------------------------------------- reading the reply

  /** The lower-cased display name the mention search looks for: the name, or "color style type". */
  function ItemName(item: ClothingItem): string
  {
    Lower(NameOr(item, item.color + " " + item.style + " " + TypeName(item.kind)))
  }

  /** The four strings that identify an item in a reply. */
  function Identifiers(item: ClothingItem): (r: seq<string>)
    ensures |r| == 4
  {
    [ItemName(item), item.color + " " + TypeName(item.kind), item.style + " " + TypeName(item.kind), item.id]
  }

  /** Some identifier of the item occurs in the reply, ignoring case. */
  predicate Mentioned(response: string, item: ClothingItem)
  {
    var hay := Lower(response);
    var ids := Identifiers(item);
    Contains(hay, Lower(ids[0])) || Contains(hay, Lower(ids[1])) || Contains(hay, Lower(ids[2])) || Contains(hay, Lower(ids[3]))
  }

  /** An item is mentioned exactly when one of its identifiers sits at some position of the reply. */
  lemma MentionedAt(response: string, item: ClothingItem)
    ensures Mentioned(response, item) <==>
              exists k: nat, i: nat :: k < 4 && OccursAt(Lower(response), Lower(Identifiers(item)[k]), i)
  {
    var hay, ids := Lower(response), Identifiers(item);
    ContainsAt(hay, Lower(ids[0]));
    ContainsAt(hay, Lower(ids[1]));
    ContainsAt(hay, Lower(ids[2]));
    ContainsAt(hay, Lower(ids[3]));
    if exists k: nat, i: nat :: k < 4 && OccursAt(hay, Lower(ids[k]), i) {
      var k: nat, i: nat :| k < 4 && OccursAt(hay, Lower(ids[k]), i);
      assert k == 0 || k == 1 || k == 2 || k == 3;
    }
  }

  /** `identifyClothingMentions(aiResponse)`: the wardrobe items the reply mentions, in wardrobe order. */
  method IdentifyClothingMentions(items: seq<ClothingItem>, response: string) returns (mentions: seq<ClothingItem>)
    ensures mentions == Filter(items, item => Mentioned(response, item))
    ensures IsSubsequence(mentions, items)
    ensures NoDuplicates(items) ==> NoDuplicates(mentions)
    ensures forall i :: 0 <= i < |items| ==> (items[i] in mentions <==> Mentioned(response, items[i]))
  {
    mentions := [];
    for i := 0 to |items|
      invariant mentions == Filter(items[..i], item => Mentioned(response, item))
    {
      assert items[..i + 1][..i] == items[..i];
      if Mentioned(response, items[i]) {
        mentions := mentions + [items[i]];
      }
    }
    assert items[..|items|] == items;
    FilterIsSubsequence(items, item => Mentioned(response, item));
    if NoDuplicates(items) {
      FilterNoDuplicates(items, item => Mentioned(response, item));
    }
  }

  /** The reply names an id, style or colour of either item (the check `parseOutfitSuggestions` makes). */
  predicate IsRelevant(content: string, top: ClothingItem, bottom: ClothingItem)
  {
    var hay := Lower(content);
    || Contains(hay, Lower(top.id)) || Contains(hay, Lower(bottom.id))
    || Contains(hay, Lower(top.style)) || Contains(hay, Lower(bottom.style))
    || Contains(hay, Lower(top.color)) || Contains(hay, Lower(bottom.color))
  }

  /** The resolved prefix grows by the suggestion at `i` when that one resolves. */
  lemma ResolveAllStep(suggestions: seq<OutfitSuggestion>, items: seq<ClothingItem>, i: nat)
    requires i < |suggestions|
    ensures ResolveAll(suggestions[..i + 1], items) ==
              ResolveAll(suggestions[..i], items) +
              (if Resolve(suggestions[i], items).Some? then [Resolve(suggestions[i], items).value] else [])
  {
    assert suggestions[..i + 1][..i] == suggestions[..i];
  }

  /** Once three are kept, further pushes do not change the first three. */
  lemma FirstThreeStep<T>(pushed: seq<T>, rs: seq<T>, o: T, push: bool)
    requires Take(pushed, 3) == Take(rs, 3)
    requires |pushed| < 3 ==> push
    ensures Take(if push then pushed + [o] else pushed, 3) == Take(rs + [o], 3)
  {
    if |pushed| < 3 {
      assert |rs| < 3;
      assert pushed == rs;
    } else {
      assert |rs| >= 3;
      assert (rs + [o])[..3] == rs[..3];
      assert (pushed + [o])[..3] == pushed[..3];
    }
  }

  /** One pass of the loop in `parseOutfitSuggestions`: pushing the resolved outfit whenever fewer than
      three are held keeps the first three equal to those of the resolvable prefix. */
  lemma ParseStep(suggestions: seq<OutfitSuggestion>, items: seq<ClothingItem>, i: nat,
                  pushed: seq<ResolvedOutfit>, push: bool)
    requires i < |suggestions|
    requires Take(pushed, 3) == Take(ResolveAll(suggestions[..i], items), 3)
    requires |pushed| < 3 ==> push
    ensures var res := Resolve(suggestions[i], items);
            Take(if res.Some? && push then pushed + [res.value] else pushed, 3) ==
            Take(ResolveAll(suggestions[..i + 1], items), 3)
  {
    ResolveAllStep(suggestions, items, i);
    var res := Resolve(suggestions[i], items);
    if res.Some? {
      FirstThreeStep(pushed, ResolveAll(suggestions[..i], items), res.value, push);
    }
  }

  /** `parseOutfitSuggestions(content)`: whatever the reply says, the first three saved outfits whose
      items are both found — while fewer than three are in hand every resolvable one is taken, and the
      final `slice(0, 3)` drops whatever the relevance test added after that. */
  method ParseOutfitSuggestions(suggestions: seq<OutfitSuggestion>, items: seq<ClothingItem>, content: string)
    returns (outfits: seq<ResolvedOutfit>)
    ensures outfits == Take(ResolveAll(suggestions, items), 3)
  {
    var pushed: seq<ResolvedOutfit> := [];
    for i := 0 to |suggestions|
      invariant Take(pushed, 3) == Take(ResolveAll(suggestions[..i], items), 3)
    {
      var suggestion := suggestions[i];
      var top := FindById(items, suggestion.topId);
      var bottom := FindById(items, suggestion.bottomId);
      var push := |pushed| < 3;
      if top.Some? && bottom.Some? {
        push := IsRelevant(content, top.value, bottom.value) || push;
      }
      ParseStep(suggestions, items, i, pushed, push);
      if top.Some? && bottom.Some? && push {
        assert Resolve(suggestion, items) == Some(ResolvedOutfit(top.value, bottom.value, suggestion));
        pushed := pushed + [ResolvedOutfit(top.value, bottom.value, suggestion)];
      }
    }
    assert suggestions[..|suggestions|] == suggestions;
    outfits := Take(pushed, 3);
  }

  /** Every outfit shown under a reply has both items resolved by their ids. */
  lemma ParsedOutfitsResolve(suggestions: seq<OutfitSuggestion>, items: seq<ClothingItem>, o: ResolvedOutfit)
    requires o in Take(ResolveAll(suggestions, items), 3)
    ensures o.suggestion in suggestions
    ensures Some(o.top) == FindById(items, o.suggestion.topId) && Some(o.bottom) == FindById(items, o.suggestion.bottomId)
  {
    var r := ResolveAll(suggestions, items);
    assert o in r;
    ResolveAllMembers(suggestions, items, o);
  }

  /** The phrase `identifyOutfitReference` looks for: "<top> and <bottom>", with "color type" for a missing name. */
  function Description(o: ResolvedOutfit): string
  {
    NameOr(o.top, o.top.color + " " + TypeName(o.top.kind)) + " and " +
    NameOr(o.bottom, o.bottom.color + " " + TypeName(o.bottom.kind))
  }

  /** The reply contains the description ignoring case, or the suggestion id exactly. */
  predicate Refers(response: string, o: ResolvedOutfit)
  {
    Contains(Lower(response), Lower(Description(o))) || Contains(response, o.suggestion.id)
  }

  /** The suggestion at `i` resolves and the reply refers to it. */
  predicate ReferencedAt(suggestions: seq<OutfitSuggestion>, items: seq<ClothingItem>, response: string, i: nat)
    requires i < |suggestions|
  {
    Resolve(suggestions[i], items).Some? && Refers(response, Resolve(suggestions[i], items).value)
  }

  /** `identifyOutfitReference(aiResponse)`: the first saved outfit the reply refers to, if any. */
  method IdentifyOutfitReference(suggestions: seq<OutfitSuggestion>, items: seq<ClothingItem>, response: string)
    returns (r: Option<ResolvedOutfit>)
    ensures r.None? <==> forall i :: 0 <= i < |suggestions| ==> !ReferencedAt(suggestions, items, response, i)
    ensures r.Some? ==> exists i :: 0 <= i < |suggestions| && ReferencedAt(suggestions, items, response, i) &&
                                   Resolve(suggestions[i], items) == r &&
                                   forall j :: 0 <= j < i ==> !ReferencedAt(suggestions, items, response, j)
  {
    for i := 0 to |suggestions|
      invariant forall j :: 0 <= j < i ==> !ReferencedAt(suggestions, items, response, j)
    {
      // both `find`s succeed exactly when the suggestion resolves
      var resolved := Resolve(suggestions[i], items);
      if resolved.Some? && Refers(response, resolved.value) {
        assert ReferencedAt(suggestions, items, response, i);
        return resolved;
      }
    }
    return None;
  }
}
