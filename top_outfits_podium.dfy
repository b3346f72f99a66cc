/**
 * The podium of src/components/TopOutfitsPodium.tsx: the three best-scoring suggestions, drawn
 * with first place in the middle on wide screens, each as a card when both its items are found.
 */
module TopOutfitsPodium {
  import opened Seqs
  import opened Clothing
  import opened Ranking

  function ScoreOf(s: OutfitSuggestion): real
  {
    s.score
  }

  /** `[...suggestions].sort((a, b) => b.score - a.score).slice(0, 3)`. */
  function TopSuggestions(suggestions: seq<OutfitSuggestion>): (r: seq<OutfitSuggestion>)
    ensures |r| == Min(3, |suggestions|)
    ensures forall i, j :: 0 <= i < j < |r| ==> r[i].score >= r[j].score
    ensures multiset(r) <= multiset(suggestions)
    ensures forall i, j :: 0 <= i < |suggestions| && 0 <= j < |r| && multiset(r)[suggestions[i]] < multiset(suggestions)[suggestions[i]] ==>
              suggestions[i].score <= r[j].score
  {
    var r := TopK(suggestions, ScoreOf, 3);
    assert forall i :: 0 <= i < |r| ==> ScoreOf(r[i]) == r[i].score;
    r
  }

  /** Equal scores keep their input order among the chosen three. */
  lemma TopSuggestionsStable(suggestions: seq<OutfitSuggestion>, score: real)
    ensures WithKey(TopSuggestions(suggestions), ScoreOf, score) <= WithKey(suggestions, ScoreOf, score)
  {
    TopKStable(suggestions, ScoreOf, 3, score);
  }

  /** The flex order of the card ranked `index + 1`: as ranked on mobile, otherwise 2nd, 1st, 3rd. */
  function DisplayIndex(index: nat, isMobile: bool): (r: nat)
    ensures isMobile ==> r == index
    // on desktop the best card sits in the middle and the second on its left
    ensures !isMobile ==> r <= 2 && (r == 1 <==> index == 0) && (r == 0 <==> index == 1)
  {
    if isMobile then index
    else if index == 0 then 1
    else if index == 1 then 0
    else 2
  }

  /** The desktop order swaps the first two places and is its own inverse, so it permutes {0, 1, 2}. */
  lemma DisplayIndexPermutes(index: nat, isMobile: bool)
    requires index < 3
    ensures DisplayIndex(index, isMobile) < 3
    ensures DisplayIndex(DisplayIndex(index, isMobile), isMobile) == index
    ensures isMobile ==> DisplayIndex(index, isMobile) == index
  {
  }

  /** A desktop podium step: the place shown on it, its flex order and the rounded score. */
  datatype PodiumStep = PodiumStep(place: nat, order: nat, percentage: int)

  /** A card in the grid: the suggestion, its items, its rank and its flex order. */
  datatype PodiumCard = PodiumCard(suggestion: OutfitSuggestion, top: ClothingItem, bottom: ClothingItem, rank: nat, order: nat)

  /** What the component renders when it renders anything. */
  datatype PodiumView = PodiumView(steps: seq<PodiumStep>, cards: seq<PodiumCard>, topCombos: nat, bestMatch: int)

  /** The card for the suggestion at `index`, skipped when either item is not found. */
  function CardAt(top: seq<OutfitSuggestion>, index: nat, find: string -> Option<ClothingItem>, isMobile: bool): (r: Option<PodiumCard>)
    requires index < |top|
    ensures r.Some? <==> find(top[index].topId).Some? && find(top[index].bottomId).Some?
    ensures r.Some? ==> && r.value.suggestion == top[index]
                        && Some(r.value.top) == find(top[index].topId)
                        && Some(r.value.bottom) == find(top[index].bottomId)
                        && r.value.rank == index + 1
                        && r.value.order == DisplayIndex(index, isMobile)
  {
    match (find(top[index].topId), find(top[index].bottomId))
    case (Some(t), Some(b)) => Some(PodiumCard(top[index], t, b, index + 1, DisplayIndex(index, isMobile)))
    case _ => None
  }

  /** The cards of the first `n` ranked suggestions, in rank order. */
  function CardsUpTo(top: seq<OutfitSuggestion>, n: nat, find: string -> Option<ClothingItem>, isMobile: bool): (r: seq<PodiumCard>)
    requires n <= |top|
    ensures |r| <= n
    ensures forall c :: c in r <==> exists i :: 0 <= i < n && CardAt(top, i, find, isMobile) == Some(c)
    ensures forall i, j :: 0 <= i < j < |r| ==> r[i].rank < r[j].rank
    ensures forall i :: 0 <= i < |r| ==> 1 <= r[i].rank <= n
  {
    if n == 0 then []
    else
      var front := CardsUpTo(top, n - 1, find, isMobile);
      var card := CardAt(top, n - 1, find, isMobile);
      front + (if card.Some? then [card.value] else [])
  }

  /** The desktop steps, one per ranked suggestion; none on mobile. */
  function Steps(top: seq<OutfitSuggestion>, isMobile: bool): (r: seq<PodiumStep>)
    ensures |r| == if isMobile then 0 else |top|
    ensures forall i :: 0 <= i < |r| ==> r[i] == PodiumStep(i + 1, DisplayIndex(i, false), Percentage(top[i].score))
  {
    if isMobile then []
    else seq(|top|, i requires 0 <= i < |top| => PodiumStep(i + 1, DisplayIndex(i, false), Percentage(top[i].score)))
  }

  /** The first chosen suggestion has the highest score of all saved ones. */
  lemma TopIsBest(suggestions: seq<OutfitSuggestion>)
    requires suggestions != []
    ensures forall s :: s in suggestions ==> s.score <= TopSuggestions(suggestions)[0].score
  {
    var top := TopSuggestions(suggestions);
    forall s | s in suggestions
      ensures s.score <= top[0].score
    {
      var i :| 0 <= i < |suggestions| && suggestions[i] == s;
      if multiset(top)[s] == multiset(suggestions)[s] {
        assert s in multiset(top);
        var j :| 0 <= j < |top| && top[j] == s;
      }
    }
  }

  /** The whole component: nothing for no suggestions; otherwise the steps, the cards that resolve,
      and the count of the chosen suggestions whether or not their cards were drawn. */
  function Podium(suggestions: seq<OutfitSuggestion>, find: string -> Option<ClothingItem>, isMobile: bool): (r: Option<PodiumView>)
    ensures r.None? <==> suggestions == []
    ensures r.Some? ==> && r.value.topCombos == Min(3, |suggestions|)
                        && |r.value.cards| <= r.value.topCombos
                        && r.value.bestMatch == Percentage(TopSuggestions(suggestions)[0].score)
                        && forall s :: s in suggestions ==> s.score <= TopSuggestions(suggestions)[0].score
    // every chosen suggestion whose items are found gets a card; every chosen one gets a step
    ensures r.Some? ==> && r.value.cards == CardsUpTo(TopSuggestions(suggestions), |TopSuggestions(suggestions)|, find, isMobile)
                        && r.value.steps == Steps(TopSuggestions(suggestions), isMobile)
  {
    var top := TopSuggestions(suggestions);
    if |top| == 0 then None
    else
      TopIsBest(suggestions);
      Some(PodiumView(Steps(top, isMobile), CardsUpTo(top, |top|, find, isMobile), |top|, Percentage(top[0].score)))
  }
}
