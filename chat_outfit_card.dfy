/**
 * The small outfit card shown under chat replies, src/components/ChatOutfitCard.tsx: a coarser
 * banding than the outfit card's, the item names with a "color style" fallback, the shared style
 * badge, and the match reason on medium cards only.
 */
module ChatOutfitCard {
  import opened Clothing
  import OutfitCard

  datatype Size = Sm | Md

  /** `size = 'md'`: an absent size is medium. */
  function SizeOrDefault(size: Option<Size>): (r: Size)
    ensures size.None? ==> r == Md
    ensures size.Some? ==> r == size.value
  {
    if size.Some? then size.value else Md
  }

  /** The percentage shown: 0 when the card has no suggestion. */
  function ScorePercentage(suggestion: Option<OutfitSuggestion>): (r: int)
    ensures suggestion.None? ==> r == 0
    ensures suggestion.Some? ==> r == Percentage(suggestion.value.score)
  {
    if suggestion.Some? then Percentage(suggestion.value.score) else 0
  }

  /** The four bands of the chat card; "Good Match" is the default, with no band at 60. */
  datatype ChatBand = Exceptional | Excellent | Great | GoodMatch

  datatype ChatQuality = ChatQuality(band: ChatBand, badgeColor: string, icon: Icon)

  function ChatCardQuality(percentage: int): (r: ChatQuality)
    ensures r.band == Exceptional <==> percentage >= 90
    ensures r.band == Excellent <==> 80 <= percentage < 90
    ensures r.band == Great <==> 70 <= percentage < 80
    ensures r.band == GoodMatch <==> percentage < 70
    ensures r.badgeColor == "bg-blue-500" <==> percentage < 80
  {
    if percentage >= 90 then ChatQuality(Exceptional, "bg-yellow-500", Trophy)
    else if percentage >= 80 then ChatQuality(Excellent, "bg-emerald-500", Award)
    else if percentage >= 70 then ChatQuality(Great, "bg-blue-500", Star)
    else ChatQuality(GoodMatch, "bg-blue-500", Star)
  }

  function ChatBandRank(b: ChatBand): nat
  {
    match b
    case GoodMatch => 0
    case Great => 1
    case Excellent => 2
    case Exceptional => 3
  }

  /** The chat card's banding is the outfit card's with the two lowest bands merged. */
  lemma ChatBandsCoarsenCardBands(percentage: int)
    ensures ChatBandRank(ChatCardQuality(percentage).band) ==
              if OutfitCard.BandRank(OutfitCard.CardQuality(percentage).band) == 0 then 0
              else OutfitCard.BandRank(OutfitCard.CardQuality(percentage).band) - 1
  {
  }

  /** A higher percentage never gets a lower band. */
  lemma ChatCardQualityMonotone(p: int, q: int)
    requires p <= q
    ensures ChatBandRank(ChatCardQuality(p).band) <= ChatBandRank(ChatCardQuality(q).band)
  {
    OutfitCard.CardQualityMonotone(p, q);
    ChatBandsCoarsenCardBands(p);
    ChatBandsCoarsenCardBands(q);
  }

  /** `item.name || \`${item.color} ${item.style}\``. */
  function DisplayName(item: ClothingItem): string
  {
    NameOr(item, item.color + " " + item.style)
  }

  /** An item without a usable name is shown by colour and style. */
  lemma DisplayNameFallback(item: ClothingItem)
    ensures item.name.None? || item.name.value == "" ==> DisplayName(item) == item.color + " " + item.style
    ensures item.name.Some? && item.name.value != "" ==> DisplayName(item) == item.name.value
  {
  }

  /** The style badge, as on the outfit card. */
  function StyleBadge(top: ClothingItem, bottom: ClothingItem): (r: string)
    ensures r == OutfitCard.StyleLabel(bottom, top)
    ensures top.style != bottom.style ==> r == "Mixed"
  {
    OutfitCard.StyleLabelSymmetric(top, bottom);
    OutfitCard.StyleLabel(top, bottom)
  }

  /** `suggestion && suggestion.matchReason && size === 'md'`. */
  predicate ShowReason(suggestion: Option<OutfitSuggestion>, size: Option<Size>)
  {
    suggestion.Some? && suggestion.value.matchReason != "" && SizeOrDefault(size) == Md
  }

  /** The reason shows exactly for a non-empty reason on a card that is not small. */
  lemma ShowReasonExactly(suggestion: Option<OutfitSuggestion>, size: Option<Size>)
    ensures ShowReason(suggestion, size) <==>
              suggestion.Some? && suggestion.value.matchReason != "" && size != Some(Sm)
  {
  }
}
