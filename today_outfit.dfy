/**
 * The "Today's outfit" page of src/pages/TodayOutfit.tsx: the saved suggestions are joined with the
 * wardrobe, shuffled, and shown one card at a time. Swiping right likes the card, swiping left
 * passes, and either moves on; once the last card is swiped the liked ones are shown.
 */
module TodayOutfit {
  import opened Seqs
  import opened Clothing
  import opened ClothingService

  /** A suggestion whose top and bottom were found, under the suggestion's own id. */
  datatype SwipeableOutfit = SwipeableOutfit(id: string, top: ClothingItem, bottom: ClothingItem, suggestion: OutfitSuggestion)

  function ToSwipeable(o: ResolvedOutfit): SwipeableOutfit
  {
    SwipeableOutfit(o.suggestion.id, o.top, o.bottom, o.suggestion)
  }

  /** The resolved suggestions as cards, in order. */
  function Cards(resolved: seq<ResolvedOutfit>): (r: seq<SwipeableOutfit>)
    ensures |r| == |resolved|
    ensures forall k :: 0 <= k < |r| ==> r[k] == ToSwipeable(resolved[k])
    ensures forall o :: o in r <==> exists x :: x in resolved && o == ToSwipeable(x)
  {
    if resolved == [] then []
    else [ToSwipeable(resolved[0])] + Cards(resolved[1..])
  }

  /** `suggestions.map(...).filter(Boolean)`: the resolvable suggestions, in order, as cards, one card
      for each resolvable suggestion (duplicates included). */
  function Join(suggestions: seq<OutfitSuggestion>, items: seq<ClothingItem>): (r: seq<SwipeableOutfit>)
    ensures |r| <= |suggestions|
    ensures var kept := Filter(suggestions, (s: OutfitSuggestion) => Resolve(s, items).Some?);
            && |r| == |kept|
            && forall k :: 0 <= k < |r| ==> Resolve(kept[k], items).Some? && r[k] == ToSwipeable(Resolve(kept[k], items).value)
    ensures forall o :: o in r <==> exists i :: 0 <= i < |suggestions| && Resolve(suggestions[i], items).Some? &&
                                               o == ToSwipeable(Resolve(suggestions[i], items).value)
  {
    var resolved := ResolveAll(suggestions, items);
    assert forall o :: o in Cards(resolved) <==> exists i :: 0 <= i < |suggestions| && Resolve(suggestions[i], items).Some? &&
                                                          o == ToSwipeable(Resolve(suggestions[i], items).value) by {
      forall o
        ensures o in Cards(resolved) <==> exists i :: 0 <= i < |suggestions| && Resolve(suggestions[i], items).Some? &&
                                                     o == ToSwipeable(Resolve(suggestions[i], items).value)
      {
        if o in Cards(resolved) {
          var x :| x in resolved && o == ToSwipeable(x);
          ResolveAllMembers(suggestions, items, x);
        }
        if exists i :: 0 <= i < |suggestions| && Resolve(suggestions[i], items).Some? &&
                       o == ToSwipeable(Resolve(suggestions[i], items).value) {
          var i :| 0 <= i < |suggestions| && Resolve(suggestions[i], items).Some? &&
                   o == ToSwipeable(Resolve(suggestions[i], items).value);
          ResolveAllMembers(suggestions, items, Resolve(suggestions[i], items).value);
        }
      }
    }
    Cards(resolved)
  }

  /** A suggestion saved twice is dealt twice. */
  lemma JoinKeepsDuplicates(s: OutfitSuggestion, items: seq<ClothingItem>)
    requires Resolve(s, items).Some?
    ensures Join([s, s], items) == [ToSwipeable(Resolve(s, items).value), ToSwipeable(Resolve(s, items).value)]
  {
    var kept := Filter([s, s], (x: OutfitSuggestion) => Resolve(x, items).Some?);
    assert [s, s][..1] == [s];
    assert [s][..0] == [];
    assert kept == [s, s];
  }

  /** A card of the join carries the suggestion's id and the items the suggestion names. */
  lemma JoinResolved(suggestions: seq<OutfitSuggestion>, items: seq<ClothingItem>, o: SwipeableOutfit)
    requires o in Join(suggestions, items)
    ensures o.id == o.suggestion.id && o.suggestion in suggestions
    ensures o.top.id == o.suggestion.topId && o.bottom.id == o.suggestion.bottomId
    ensures o.top in items && o.bottom in items
  {
    var i :| 0 <= i < |suggestions| && Resolve(suggestions[i], items).Some? &&
             o == ToSwipeable(Resolve(suggestions[i], items).value);
    var top := FindById(items, suggestions[i].topId);
    var bottom := FindById(items, suggestions[i].bottomId);
    var a :| 0 <= a < |items| && items[a] == top.value && items[a].id == suggestions[i].topId &&
             forall j :: 0 <= j < a ==> items[j].id != suggestions[i].topId;
    var b :| 0 <= b < |items| && items[b] == bottom.value && items[b].id == suggestions[i].bottomId &&
             forall j :: 0 <= j < b ==> items[j].id != suggestions[i].bottomId;
  }

  datatype Direction = Left | Right

  /** The page's state: the shuffled cards, the card on show, the liked cards, the results flag. */
  class SwipeSession {
    var outfits: seq<SwipeableOutfit>
    var currentIndex: nat
    var likedOutfits: seq<SwipeableOutfit>
    var showResults: bool

    /** The index never passes the end, and only shown cards are liked. */
    ghost predicate Valid()
      reads this
    {
      && currentIndex <= |outfits|
      && forall i :: 0 <= i < |likedOutfits| ==> likedOutfits[i] in outfits
    }

    /** Mounting runs `loadOutfits`: the joined cards of the whole wardrobe, in the order `shuffled`
        (whatever permutation the random comparator produced). */
    constructor (store: WardrobeStore, shuffled: seq<SwipeableOutfit>)
      requires store.Valid()
      requires multiset(shuffled) == multiset(Join(SuggestionsIn(store.storage), AllItems(store.storage)))
      ensures Valid()
      ensures outfits == shuffled && currentIndex == 0 && likedOutfits == [] && !showResults
    {
      var items := store.FetchClothingItems(None);
      var suggestions := store.FetchOutfitSuggestions();
      var joined := Join(suggestions, items);
      assert multiset(shuffled) == multiset(joined);
      outfits := shuffled;
      currentIndex := 0;
      likedOutfits := [];
      showResults := false;
    }

    /** `outfits.length - currentIndex`: the cards not yet swiped. */
    function RemainingCount(): (r: int)
      requires Valid()
      reads this
      ensures 0 <= r <= |outfits|
      ensures r == 0 <==> currentIndex == |outfits|
    {
      |outfits| - currentIndex
    }

    /** `handleSwipe(direction)`: nothing once every card is swiped; otherwise a right swipe likes the
        card on show, and either direction moves on by one, raising the results flag after the last. */
    method HandleSwipe(direction: Direction)
      requires Valid()
      modifies this
      ensures Valid()
      ensures outfits == old(outfits)
      ensures old(currentIndex) >= |outfits| ==>
                currentIndex == old(currentIndex) && likedOutfits == old(likedOutfits) && showResults == old(showResults)
      ensures old(currentIndex) < |outfits| ==>
                && currentIndex == old(currentIndex) + 1
                && likedOutfits == old(likedOutfits) + (if direction == Right then [outfits[old(currentIndex)]] else [])
                && showResults == (old(showResults) || currentIndex == |outfits|)
    {
      if currentIndex >= |outfits| { return; }
      var currentOutfit := outfits[currentIndex];
      if direction == Right {
        likedOutfits := likedOutfits + [currentOutfit];
      }
      if currentIndex + 1 >= |outfits| {
        showResults := true;
      }
      currentIndex := currentIndex + 1;
    }

    /** `goToNextOutfit`: moves on only while a later card exists. */
    method GoToNextOutfit()
      requires Valid()
      modifies this
      ensures Valid()
      ensures outfits == old(outfits) && likedOutfits == old(likedOutfits) && showResults == old(showResults)
      ensures currentIndex == if old(currentIndex) + 1 < |outfits| then old(currentIndex) + 1 else old(currentIndex)
    {
      if currentIndex < |outfits| - 1 {
        currentIndex := currentIndex + 1;
      }
    }

    /** `goToPreviousOutfit`: moves back only while an earlier card exists. */
    method GoToPreviousOutfit()
      requires Valid()
      modifies this
      ensures Valid()
      ensures outfits == old(outfits) && likedOutfits == old(likedOutfits) && showResults == old(showResults)
      ensures currentIndex == if old(currentIndex) > 0 then old(currentIndex) - 1 else 0
    {
      if currentIndex > 0 {
        currentIndex := currentIndex - 1;
      }
    }

    /** `resetSwipes`: back to the first card with nothing liked, and the cards loaded afresh. */
    method ResetSwipes(store: WardrobeStore, shuffled: seq<SwipeableOutfit>)
      requires store.Valid()
      requires multiset(shuffled) == multiset(Join(SuggestionsIn(store.storage), AllItems(store.storage)))
      modifies this
      ensures Valid()
      ensures outfits == shuffled && currentIndex == 0 && likedOutfits == [] && !showResults
    {
      currentIndex := 0;
      likedOutfits := [];
      showResults := false;
      var items := store.FetchClothingItems(None);
      var suggestions := store.FetchOutfitSuggestions();
      assert multiset(shuffled) == multiset(Join(suggestions, items));
      outfits := shuffled;
    }
  }

  /** The four quality grades of the page. */
  datatype QualityLabel = Exceptional | Excellent | Great | Good

  datatype MatchQuality = MatchQuality(grade: QualityLabel, color: string, icon: Icon)

  /** The grade of a percentage. */
  function QualityOf(percentage: int): (r: MatchQuality)
    ensures r.grade == Exceptional <==> percentage >= 90
    ensures r.grade == Excellent <==> 80 <= percentage < 90
    ensures r.grade == Great <==> 70 <= percentage < 80
    ensures r.grade == Good <==> percentage < 70
    ensures r.icon == (if percentage >= 90 then Trophy else if percentage >= 80 then Award else Star)
  {
    if percentage >= 90 then MatchQuality(Exceptional, "text-yellow-600", Trophy)
    else if percentage >= 80 then MatchQuality(Excellent, "text-emerald-600", Award)
    else if percentage >= 70 then MatchQuality(Great, "text-blue-600", Star)
    else MatchQuality(Good, "text-purple-600", Star)
  }

  /** `getMatchQuality(score)`: the grade of the rounded percentage. */
  function GetMatchQuality(score: real): (r: MatchQuality)
    // the bands as thresholds on the raw score, a half percent below each round number
    ensures r.grade == Exceptional <==> score >= 0.895
    ensures r.grade == Excellent <==> 0.795 <= score < 0.895
    ensures r.grade == Great <==> 0.695 <= score < 0.795
    ensures r.grade == Good <==> score < 0.695
  {
    QualityOf(Percentage(score))
  }

  /** Grades ordered from lowest to highest. */
  function Rank(l: QualityLabel): nat
  {
    match l
    case Good => 0
    case Great => 1
    case Excellent => 2
    case Exceptional => 3
  }

  /** A higher score never gets a lower grade. */
  lemma GetMatchQualityMonotone(a: real, b: real)
    requires a <= b
    ensures Rank(GetMatchQuality(a).grade) <= Rank(GetMatchQuality(b).grade)
  {
    PercentageMonotone(a, b);
  }
}
