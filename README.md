# nestro-cloth wardrobe core, modelled in Dafny

nestro-cloth is a browser wardrobe app. Users upload photos of tops and bottoms. Scored
top/bottom pairings ("outfit suggestions") are saved next to them. Several pages use this data: a
podium of the best three pairings, a swipe deck for "today's outfit", a closet view with search, and
an AI styling chat. This project models the logic under those pages.

- **The wardrobe store** (`ClothingService`). Browser storage is a map from the three keys
  `closet-fusion-tops`, `closet-fusion-bottoms` and `outfit-suggestions` to lists. The class
  `WardrobeStore` reads, appends, filters and writes back those lists. An entry that cannot be parsed
  is the abstract state `Corrupt`, and the catch blocks of the service are modelled on it.
- **Shared data model** (`Clothing`). Items, suggestions, id lookup with `Array.find`, the
  `name || fallback` display rule, and `Math.round(score * 100)`.
- **Ranking** (`Ranking`). A stable descending sort by a numeric key and its top-k prefix.
  `Array.prototype.sort` is stable from ECMA-262, 10th edition (2019), onward.
- **Pages and components**:
  - the podium (`TopOutfitsPodium`);
  - the swipe session (`TodayOutfit`, class `SwipeSession`);
  - the chat's wardrobe summary and its reading of replies (`AIChat`);
  - the closet page (`Closet`, class `ClosetPage`, which holds the store);
  - the two score-band tables (`OutfitCard`, `ChatOutfitCard`).
- **Text helpers** (`Text`). `toLowerCase` and `includes`.
- **Sequence helpers** (`Seqs`). `filter` and `slice`.

Behaviours the proofs make explicit:

- Deleting an item never touches the saved suggestions. A suggestion can therefore refer to an item
  that no longer exists. The swipe deck's join, the podium's card grid and `parseOutfitSuggestions`
  drop such suggestions. The podium's steps, its "Top Combos" count and its "Best Match" score keep
  them. So does the chat's summary of saved combinations, which shows 'Top' and 'Bottom' for a
  missing item.
- Suggestions are saved without de-duplication. A suggestion saved twice gives two cards in the deck.
- The store appends a new item at the end of its list. The closet page puts it first, and then
  writes its own list back as a backup. After an upload, the stored list is in the page's order.
- `parseOutfitSuggestions` takes every resolvable outfit while it holds fewer than three, and then
  cuts the list at three. So its relevance test never changes the result. It always shows the first
  three resolvable saved outfits, whatever the reply says.
- The sort is stable, and the code has no tie-break by id. Podium ties keep input order. In the
  frequency summaries, equal counts keep tally order: the order in which values first appear.

## Model

| member | source | states |
|---|---|---|
| `Text.Lower` | src/pages/Closet.tsx:164-166 | lower-casing keeps the length and maps each character on its own (ASCII letters only) |
| `Text.ContainsAt` | src/pages/AIChat.tsx:186 | the recursive `includes` holds exactly when the needle occurs at some position of the haystack |
| `Text.ContainsEmpty` | src/pages/Closet.tsx:164-166 | every string includes the empty string |
| `Ranking.SortDesc` | src/components/TopOutfitsPodium.tsx:16-17 | the result is a permutation of the input (same multiset) ordered non-increasing by the key |
| `Ranking.SortDescStable` | src/components/TopOutfitsPodium.tsx:17 | among elements with equal keys the sorted order is the input order |
| `Ranking.TopK` | src/components/TopOutfitsPodium.tsx:16-18 | the result has min(n, length) elements, is sorted non-increasing, is a sub-multiset of the input, and nothing left out scores above anything chosen |
| `Ranking.TopKStable` | src/components/TopOutfitsPodium.tsx:17-18 | within each score, the chosen elements are a prefix of that score's elements in input order |
| `Clothing.FindById` | src/pages/TodayOutfit.tsx:56-57 | `None` exactly when no item has the id; otherwise the first item carrying it |
| `Clothing.NameOr` | src/components/ChatOutfitCard.tsx:91 | a present, non-empty name is used; an absent or empty one gives way to the fallback |
| `Clothing.Resolve` | src/pages/TodayOutfit.tsx:56-66 | a suggestion resolves exactly when both its ids are found, to items carrying those ids |
| `Clothing.CollectMembers` | src/pages/TodayOutfit.tsx:55-67 | `map` then `filter(Boolean)`: a value is kept exactly when some element yields it |
| `Clothing.CollectAligned` | src/pages/TodayOutfit.tsx:55-67 | `map` then `filter(Boolean)` lines up with filtering by the same test: one value per kept element, in order |
| `Clothing.ResolveAll` | src/pages/TodayOutfit.tsx:55-67 | one outfit for each suggestion whose two items are found, in order: the k-th outfit is the resolution of the k-th resolvable suggestion |
| `Clothing.ResolveAllMembers` | src/pages/TodayOutfit.tsx:55-67 | an outfit is among the resolved ones exactly when some suggestion resolves to it |
| `Clothing.Percentage` | src/components/OutfitCard.tsx:31 | the integer nearest to score × 100, a half rounding up |
| `Clothing.PercentageRange` | src/components/OutfitCard.tsx:31 | a score in [0, 1] rounds to a percentage in [0, 100] |
| `Clothing.PercentageMonotone` | src/components/OutfitCard.tsx:31 | rounding never turns a higher score into a lower percentage |
| `ClothingService.WithoutId` | src/services/clothingService.ts:80 | the result keeps every item without the id, and only elements of the input that lack the id |
| `ClothingService.WithoutIdIdempotent` | src/services/clothingService.ts:78-88 | filtering an id out twice is the same as once |
| `ClothingService.WithoutIdIsSubsequence` | src/services/clothingService.ts:80 | the kept items stay in their original order |
| `ClothingService.KeyNamesDistinct` | src/services/clothingService.ts:19-35 | the tops, bottoms and suggestions entries have three different storage keys, so writing one entry never overwrites another |
| `ClothingService.WithId` | src/services/clothingService.ts:8-12 | the saved item copies every given field and takes the fresh id and the current time |
| `ClothingService.DropFrom` | src/services/clothingService.ts:78-88 | rewriting one item list leaves the set of keys and every other entry unchanged |
| `ClothingService.DropFromIdempotent` | src/services/clothingService.ts:78-82 | rewriting one list twice for the same id is once |
| `ClothingService.DropFromCommute` | src/services/clothingService.ts:78-88 | rewriting the two lists in either order gives the same storage |
| `ClothingService.AfterDelete` | src/services/clothingService.ts:73-93 | deletion keeps the keys, can change only the two item lists, and changes nothing when the tops list is unreadable |
| `ClothingService.DeleteEffect` | src/services/clothingService.ts:73-93 | deletion keeps the keys, never changes the suggestions, filters every readable list present, stops at a corrupt tops list, and keeps storage well typed |
| `ClothingService.DeleteIdempotent` | src/services/clothingService.ts:78-88 | deleting the same id twice leaves storage as deleting it once |
| `ClothingService.ItemsIn` | src/services/clothingService.ts:50-53 | a readable item list is returned as stored; any other entry, or none, reads as empty |
| `ClothingService.AllItems` | src/services/clothingService.ts:54-59 | `[]` when either list is unreadable; otherwise the tops followed by the bottoms |
| `ClothingService.SuggestionsIn` | src/services/clothingService.ts:96-107 | a readable suggestion list is returned as stored; any other entry, or none, reads as empty |
| `ClothingService.WardrobeStore.FetchClothingItems` | src/services/clothingService.ts:44-70 | a type gives exactly that key's list (`[]` when absent or unreadable); no type gives tops then bottoms, or `[]` when either is unreadable |
| `ClothingService.WardrobeStore.FetchOutfitSuggestions` | src/services/clothingService.ts:96-107 | the stored suggestions, or `[]` when absent or unreadable |
| `ClothingService.WardrobeStore.SaveClothingItem` | src/services/clothingService.ts:6-27 | appends the new item to its type's list and changes no other entry; an unreadable list is replaced by the new item alone |
| `ClothingService.WardrobeStore.SaveOutfitSuggestion` | src/services/clothingService.ts:30-41 | appends without de-duplication, leaves an unreadable list as it is, and returns its argument either way |
| `ClothingService.WardrobeStore.SetItems` | src/pages/Closet.tsx:78-88 | writing a list replaces exactly that key's entry |
| `ClothingService.WardrobeStore.DeleteClothingItem` | src/services/clothingService.ts:73-93 | reports failure exactly when a list is unreadable, and leaves storage as the delete model describes |
| `TodayOutfit.Join` | src/pages/TodayOutfit.tsx:54-67 | one card per resolvable suggestion, in order and duplicates included, under that suggestion's id; a card is in the join exactly when some suggestion resolves to its items |
| `TodayOutfit.JoinKeepsDuplicates` | src/services/clothingService.ts:34 | a resolvable suggestion saved twice gives two cards |
| `TodayOutfit.JoinResolved` | src/pages/TodayOutfit.tsx:56-65 | every card carries its suggestion's id and two wardrobe items whose ids are the suggestion's |
| `TodayOutfit.SwipeSession.constructor` | src/pages/TodayOutfit.tsx:44-89 | the deck is a permutation of the join of the whole wardrobe, at the first card, nothing liked, no results |
| `TodayOutfit.SwipeSession.RemainingCount` | src/pages/TodayOutfit.tsx:293 | between 0 and the deck size, and 0 exactly when every card is swiped |
| `TodayOutfit.SwipeSession.HandleSwipe` | src/pages/TodayOutfit.tsx:91-111 | nothing happens past the end; otherwise the index moves by one, a right swipe appends the current card to the liked list, and results show after the last card |
| `TodayOutfit.SwipeSession.GoToNextOutfit` | src/pages/TodayOutfit.tsx:142-146 | advances only while a later card exists; nothing else changes |
| `TodayOutfit.SwipeSession.GoToPreviousOutfit` | src/pages/TodayOutfit.tsx:148-152 | retreats only while an earlier card exists; nothing else changes |
| `TodayOutfit.SwipeSession.ResetSwipes` | src/pages/TodayOutfit.tsx:134-140 | back to the first card with nothing liked and no results, over a reloaded, reshuffled deck |
| `TodayOutfit.QualityOf` | src/pages/TodayOutfit.tsx:154-160 | Exceptional from 90, Excellent from 80, Great from 70, Good below |
| `TodayOutfit.GetMatchQuality` | src/pages/TodayOutfit.tsx:154-160 | the grade bands as thresholds on the raw score: Exceptional from 0.895, Excellent from 0.795, Great from 0.695, Good below |
| `TodayOutfit.GetMatchQualityMonotone` | src/pages/TodayOutfit.tsx:154-160 | a higher score never gets a lower grade |
| `TopOutfitsPodium.TopSuggestions` | src/components/TopOutfitsPodium.tsx:16-18 | min(3, n) suggestions, by score descending, a sub-multiset of the input, none left out scoring higher than one chosen |
| `TopOutfitsPodium.TopSuggestionsStable` | src/components/TopOutfitsPodium.tsx:17 | equal scores keep their input order |
| `TopOutfitsPodium.DisplayIndex` | src/components/TopOutfitsPodium.tsx:168-170 | mobile keeps the rank order; on desktop the best card sits in the middle and the second on its left |
| `TopOutfitsPodium.DisplayIndexPermutes` | src/components/TopOutfitsPodium.tsx:168-170 | the desktop order is its own inverse on {0, 1, 2}, so a bijection; mobile is the identity |
| `TopOutfitsPodium.CardAt` | src/components/TopOutfitsPodium.tsx:161-164 | a card exists exactly when both items are found, and carries rank index + 1 and its display order |
| `TopOutfitsPodium.CardsUpTo` | src/components/TopOutfitsPodium.tsx:160-230 | the grid holds exactly the cards that resolve, in rank order |
| `TopOutfitsPodium.Steps` | src/components/TopOutfitsPodium.tsx:71-74 | one podium step per chosen suggestion on desktop, none on mobile |
| `TopOutfitsPodium.TopIsBest` | src/components/TopOutfitsPodium.tsx:16-24 | the first chosen suggestion scores at least as high as every saved one |
| `TopOutfitsPodium.Podium` | src/components/TopOutfitsPodium.tsx:22-24 | nothing is drawn exactly when there are no suggestions. The steps are `Steps` of the chosen three. The grid is `CardsUpTo` of them: a card for every chosen suggestion whose items are found. "Top Combos" counts the chosen ones whether or not their cards draw. "Best Match" is the highest score |
| `AIChat.Bump` | src/pages/AIChat.tsx:136 | one more occurrence of the value and no other count changes; values stay distinct |
| `AIChat.Tally` | src/pages/AIChat.tsx:135-138 | one entry per distinct value, with count equal to its number of occurrences |
| `AIChat.TallyCounts` | src/pages/AIChat.tsx:135-138 | each recorded count is the value's number of occurrences, and the value occurs |
| `AIChat.TallyCovers` | src/pages/AIChat.tsx:135-138 | every value that occurs has an entry |
| `AIChat.TallyOrder` | src/pages/AIChat.tsx:135-140 | entries are in order of first appearance: before every occurrence of a later entry's value, an earlier entry's value occurs |
| `AIChat.MostCommon` | src/pages/AIChat.tsx:140-142 | at most three distinct values with their exact counts, non-increasing, and no value left out occurs more often than one listed |
| `AIChat.MostCommonStable` | src/pages/AIChat.tsx:140-142 | values with equal counts are listed in their tally order, hence in order of first appearance |
| `AIChat.GetMostCommonColors` | src/pages/AIChat.tsx:134-145 | over the colours of the given items: min(3, number of distinct values) entries with distinct values and their exact counts, non-increasing, and no value left out occurs more often than one listed |
| `AIChat.GetMostCommonStyles` | src/pages/AIChat.tsx:147-158 | over the styles of all items: min(3, number of distinct values) entries with distinct values and their exact counts, non-increasing, and no value left out occurs more often than one listed |
| `AIChat.GetMostCommonFabrics` | src/pages/AIChat.tsx:160-171 | over the fabrics of all items: min(3, number of distinct values) entries with distinct values and their exact counts, non-increasing, and no value left out occurs more often than one listed |
| `AIChat.FoundName` | src/pages/AIChat.tsx:120 | a missing item shows the placeholder; a found one its name or the placeholder |
| `AIChat.Combinations` | src/pages/AIChat.tsx:117-121 | at most ten numbered lines, one for each of the first saved suggestions |
| `AIChat.ComboLineOf` | src/pages/AIChat.tsx:117-121 | the line is numbered from 1 and carries the score in percent and the reason; a found item shows its name, or the placeholder when the name is absent or empty; a missing top or bottom gets the 'Top' or 'Bottom' placeholder |
| `AIChat.CreateWardrobeContext` | src/pages/AIChat.tsx:103-131 | tops and bottoms are the wardrobe's items of that type, in order, and share out the wardrobe; at most ten combinations, the "more" marker exactly when more than ten are saved; colours are tallied per type, styles and fabrics over the whole wardrobe |
| `AIChat.SplitByKind` | src/pages/AIChat.tsx:104-105 | every item lands in exactly one of the two lists |
| `AIChat.Mentioned` | src/pages/AIChat.tsx:176-187 | defined as: the lower-cased reply includes the lower-cased display name, "color type", "style type" or id |
| `AIChat.MentionedAt` | src/pages/AIChat.tsx:185-187 | an item is mentioned exactly when one of its four identifiers occurs, lower-cased, at some position of the lower-cased reply |
| `AIChat.IdentifyClothingMentions` | src/pages/AIChat.tsx:173-193 | the mentioned items in wardrobe order, an order-preserving sub-list, duplicate-free when the wardrobe is, keeping an item exactly when it is mentioned |
| `AIChat.FirstThreeStep` | src/pages/AIChat.tsx:220-226 | once three outfits are held, further pushes do not change the first three |
| `AIChat.IsRelevant` | src/pages/AIChat.tsx:213-218 | defined as: the lower-cased reply includes the lower-cased id, style or colour of the top or the bottom |
| `AIChat.ParseStep` | src/pages/AIChat.tsx:207-224 | one loop pass keeps the first three held outfits equal to the first three resolvable ones so far |
| `AIChat.ParseOutfitSuggestions` | src/pages/AIChat.tsx:195-227 | whatever the reply, the first min(3, R) resolvable saved outfits |
| `AIChat.ParsedOutfitsResolve` | src/pages/AIChat.tsx:208-211 | each outfit shown has both items resolved by their ids |
| `AIChat.Description` | src/pages/AIChat.tsx:236 | defined as: "<top> and <bottom>", each the name or "color type" |
| `AIChat.Refers` | src/pages/AIChat.tsx:237-238 | defined as: the reply includes the description ignoring case, or the suggestion id exactly |
| `AIChat.IdentifyOutfitReference` | src/pages/AIChat.tsx:229-244 | the first resolvable suggestion whose description occurs ignoring case or whose id occurs exactly; none exactly when no suggestion qualifies |
| `Closet.SearchMatches` | src/pages/Closet.tsx:163-167 | defined as: the lower-cased query is in the lower-cased name (when present), style or fabric |
| `Closet.SearchFilter` | src/pages/Closet.tsx:163-173 | an order-preserving sub-list keeping an item exactly when the lower-cased query is in its name, style or fabric |
| `Closet.SearchEmptyKeepsAll` | src/pages/Closet.tsx:163-167 | an empty query keeps every item |
| `Closet.ClosetPage.constructor` | src/pages/Closet.tsx:53-88 | the lists are the store's lists by type, and the backup writes at mount leave the store unchanged |
| `Closet.ClosetPage.BackupTops` | src/pages/Closet.tsx:78-82 | the tops are written to the store only when non-empty |
| `Closet.ClosetPage.BackupBottoms` | src/pages/Closet.tsx:84-88 | the bottoms are written to the store only when non-empty |
| `Closet.ClosetPage.HandleImageUploaded` | src/pages/Closet.tsx:90-131 | on failure nothing changes; otherwise the saved item goes to the front of its list, the other list is untouched, and the store holds the page's list |
| `Closet.ClosetPage.HandleDeleteItem` | src/pages/Closet.tsx:133-160 | the id is a top exactly when a top carries it; only that list is filtered; a failed store delete leaves both lists unchanged |
| `OutfitCard.CardQuality` | src/components/OutfitCard.tsx:34-63 | Exceptional from 90, Excellent from 80, Great Match from 70, Good Match from 60, Fair Match below |
| `OutfitCard.CardQualityMonotone` | src/components/OutfitCard.tsx:40-63 | a higher percentage never gets a lower band |
| `OutfitCard.ProgressBarColor` | src/components/OutfitCard.tsx:192-195 | emerald from 80 and gray below 60 |
| `OutfitCard.ProgressBarFollowsBand` | src/components/OutfitCard.tsx:192-195 | the two top bands share emerald; Great, Good and Fair get blue, purple and gray |
| `OutfitCard.PodiumMedal` | src/components/OutfitCard.tsx:70-84 | a medal exactly on a podium card with rank 1, 2 or 3, showing that place |
| `OutfitCard.PodiumMedalsDistinct` | src/components/OutfitCard.tsx:70-84 | the three places show different icons |
| `OutfitCard.StyleLabel` | src/components/OutfitCard.tsx:273 | the shared style, or "Mixed" when the styles differ |
| `OutfitCard.StyleLabelSymmetric` | src/components/OutfitCard.tsx:273 | the badge does not depend on which item is the top |
| `ChatOutfitCard.SizeOrDefault` | src/components/ChatOutfitCard.tsx:13 | an absent size is medium |
| `ChatOutfitCard.ScorePercentage` | src/components/ChatOutfitCard.tsx:14 | 0 with no suggestion, else the rounded score |
| `ChatOutfitCard.ChatCardQuality` | src/components/ChatOutfitCard.tsx:17-33 | Exceptional from 90, Excellent from 80, Great from 70, Good Match below, with no 60 band |
| `ChatOutfitCard.ChatBandsCoarsenCardBands` | src/components/ChatOutfitCard.tsx:17-33 | the chat bands are the outfit card's bands with the lowest two merged |
| `ChatOutfitCard.ChatCardQualityMonotone` | src/components/ChatOutfitCard.tsx:21-33 | a higher percentage never gets a lower band |
| `ChatOutfitCard.DisplayName` | src/components/ChatOutfitCard.tsx:91-94 | defined as: the name, or "color style" |
| `ChatOutfitCard.DisplayNameFallback` | src/components/ChatOutfitCard.tsx:91-94 | the name, or "color style" when absent or empty |
| `ChatOutfitCard.StyleBadge` | src/components/ChatOutfitCard.tsx:111 | the same shared-style-or-"Mixed" badge as the outfit card, symmetric in the two items |
| `ChatOutfitCard.ShowReason` | src/components/ChatOutfitCard.tsx:116 | defined as: a suggestion is given, its reason is non-empty and the size is medium |
| `ChatOutfitCard.ShowReasonExactly` | src/components/ChatOutfitCard.tsx:116 | the reason shows exactly for a suggestion with a non-empty reason on a card that is not small |

## Left out

- The Gemini request and response and `testGeminiConnection` are left out. They are network I/O. The
  reply text is a parameter of the reply-reading operations.
- The model does not render the prompt or the summaries as text. That covers the item lines, the
  `color (count)` joining and `toFixed(0)`. `WardrobeSummary` holds what the text is made from.
- `getDominantColor`, `determineClothingStyle` and `determineFabricType` are not modelled. They are
  not shown in the source, and two of them are random. Their results arrive as the `tags` parameter
  of `HandleImageUploaded`. Its value `None` stands for a processing failure.
- The shuffle with `Math.random` is left out. The caller supplies the deck, which may be any
  permutation of the join.
- `uuidv4` and `new Date()` are parameters (`id`, `now`). The re-parsing of `added` into a `Date`
  on fetch is not modelled.
- JSON encoding is not modelled. Storage holds parsed lists, and an unparsable entry is `Corrupt`.
- Storage writes never fail in the model. A `setItem` quota error, and the rethrow it would cause in
  `saveClothingItem`, are left out.
- `Math.round(score * 100)` is computed on exact reals, not on binary floating point.
- `Text.Lower`: it lower-cases the ASCII letters only. JavaScript's `toLowerCase` applies full
  Unicode case mapping.
- `AIChat.Tally`: entries are in order of first appearance. JavaScript's `Object.entries` lists
  integer-like keys (such as a colour named `"1"`) first, in ascending order. That ordering, and
  the tie order it causes, is not modelled.
- Gesture thresholds are left out. That covers `handlePan` and `handlePanEnd`, and `dragDirection`.
- Animation, the 300 ms delay before results show, React state batching and the asynchrony of loads
  are left out. The results flag is set in the same step as the last swipe. A reload completes
  inside `ResetSwipes`.
- Toasts and the loading and Gemini status flags are left out.
- Pair scoring, which produces `score` and `matchReason`, is not part of this model.
- src/types/clothing.ts is not part of this model. `style` and `fabric` are taken as always-present
  strings, so an empty search keeps every item. `name` is optional.
- The copy `[...suggestions]` before sorting needs no statement. The model works on values, so the
  input cannot be reordered.
- src/pages/Index.tsx, src/components/Layout.tsx, src/App.tsx and
  src/components/ClothingItemPreview.tsx are left out. They contain only routing and markup.
