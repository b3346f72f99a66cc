/**
 * The display rules of src/components/OutfitCard.tsx: the match quality shown for a percentage, the
 * progress-bar colour, the medal a podium card wears, and the style badge.
 */
module OutfitCard {
  import opened Clothing

  /** The five quality bands of the card. */
  datatype Band = Exceptional | Excellent | GreatMatch | GoodMatch | FairMatch

  datatype BadgeVariant = Default | Secondary | Outline

  /** Everything the banding chain assigns: band, badge variant, icon, score colour and card glow. */
  datatype Quality = Quality(band: Band, variant: BadgeVariant, icon: Icon, scoreColor: string, glow: string)

  /** The `if / else if` chain on the percentage; "Fair Match" is what is left below 60. */
  function CardQuality(percentage: int): (r: Quality)
    ensures r.band == Exceptional <==> percentage >= 90
    ensures r.band == Excellent <==> 80 <= percentage < 90
    ensures r.band == GreatMatch <==> 70 <= percentage < 80
    ensures r.band == GoodMatch <==> 60 <= percentage < 70
    ensures r.band == FairMatch <==> percentage < 60
    ensures r.variant == Default <==> percentage >= 80
    ensures r.glow == "" <==> percentage < 70
  {
    if percentage >= 90 then Quality(Exceptional, Default, Trophy, "text-yellow-600", "shadow-yellow-200/50")
    else if percentage >= 80 then Quality(Excellent, Default, Award, "text-emerald-600", "shadow-emerald-200/30")
    else if percentage >= 70 then Quality(GreatMatch, Secondary, Sparkles, "text-blue-600", "shadow-blue-200/20")
    else if percentage >= 60 then Quality(GoodMatch, Outline, Zap, "text-purple-600", "")
    else Quality(FairMatch, Outline, Star, "text-slate-600", "")
  }

  /** Bands ordered from lowest to highest. */
  function BandRank(b: Band): nat
  {
    match b
    case FairMatch => 0
    case GoodMatch => 1
    case GreatMatch => 2
    case Excellent => 3
    case Exceptional => 4
  }

  /** A higher percentage never gets a lower band. */
  lemma CardQualityMonotone(p: int, q: int)
    requires p <= q
    ensures BandRank(CardQuality(p).band) <= BandRank(CardQuality(q).band)
  {
  }

  datatype BarColor = Emerald | Blue | Purple | Gray

  /** The progress-bar gradient, chosen by its own chain with no separate top band. */
  function ProgressBarColor(percentage: int): (r: BarColor)
    ensures r == Emerald <==> percentage >= 80
    ensures r == Gray <==> percentage < 60
  {
    if percentage >= 80 then Emerald
    else if percentage >= 70 then Blue
    else if percentage >= 60 then Purple
    else Gray
  }

  /** The bar agrees with the badge: both top bands share emerald, each lower band has its own colour. */
  lemma ProgressBarFollowsBand(percentage: int)
    ensures ProgressBarColor(percentage) == match CardQuality(percentage).band
              case Exceptional => Emerald
              case Excellent => Emerald
              case GreatMatch => Blue
              case GoodMatch => Purple
              case FairMatch => Gray
  {
  }

  /** The medal of a podium card: its place and icon. */
  datatype Medal = Medal(place: nat, icon: Icon)

  /** `if (isPodium && rank)` then ranks 1, 2 and 3 get trophy, award and sparkles; anything else none. */
  function PodiumMedal(isPodium: bool, rank: Option<int>): (r: Option<Medal>)
    ensures r.Some? <==> isPodium && rank.Some? && 1 <= rank.value <= 3
    ensures r.Some? ==> r.value.place == rank.value
  {
    if isPodium && rank.Some? && rank.value != 0 then
      if rank.value == 1 then Some(Medal(1, Trophy))
      else if rank.value == 2 then Some(Medal(2, Award))
      else if rank.value == 3 then Some(Medal(3, Sparkles))
      else None
    else None
  }

  /** The three medals differ. */
  lemma PodiumMedalsDistinct(a: int, b: int)
    requires PodiumMedal(true, Some(a)).Some? && PodiumMedal(true, Some(b)).Some? && a != b
    ensures PodiumMedal(true, Some(a)).value.icon != PodiumMedal(true, Some(b)).value.icon
  {
  }

  /** The style badge: the shared style, or "Mixed". */
  function StyleLabel(top: ClothingItem, bottom: ClothingItem): (r: string)
    ensures top.style == bottom.style ==> r == top.style
    ensures top.style != bottom.style ==> r == "Mixed"
  {
    if top.style == bottom.style then top.style else "Mixed"
  }

  /** The badge does not depend on which item is the top. */
  lemma StyleLabelSymmetric(top: ClothingItem, bottom: ClothingItem)
    ensures StyleLabel(top, bottom) == StyleLabel(bottom, top)
  {
  }
}
